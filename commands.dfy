/** The commands of the `context` tool: what each one prints, which file it
    opens in the editor, and what `reuse` does to the files on disk. A command's
    output is the sequence of its effects; the editor itself is not modelled. */
module Commands {
  import opened Wrappers
  import opened Text
  import opened Dates
  import opened Paths
  import opened Repository
  import opened Queries

  /** What a command does to the outside world, in order. */
  datatype Effect =
    | Echo(line: string)                        // a line printed plainly
    | EchoGreen(line: string)                   // a line printed in green
    | OpenEditor(path: string, readOnly: bool)  // the editor opened on a file

  /** The files on disk, by path. */
  class FileSystem {
    var files: map<string, string>

    constructor (files: map<string, string>)
      ensures this.files == files
    {
      this.files := files;
    }

    /** `if not os.path.exists(to): shutil.copyfile(from, to)`: an existing
        file is left alone; a missing source is an error. */
    method CopyIfAbsent(from: string, to: string) returns (crash: Option<Error>)
      modifies this
      ensures to in old(files) ==> crash.None? && files == old(files)
      ensures to !in old(files) && from !in old(files) ==>
        crash == Some(FileNotFound(from)) && files == old(files)
      ensures to !in old(files) && from in old(files) ==>
        crash.None? && files == old(files)[to := old(files)[from]]
      ensures forall p :: p in old(files) ==> p in files && files[p] == old(files)[p]
      ensures forall p :: p in files ==> p in old(files) || p == to
    {
      crash := None;
      if to !in files {
        if from !in files {
          crash := Some(FileNotFound(from));
          return;
        }
        files := files[to := files[from]];
      }
    }
  }

  // ---------------------------------------------------------------- alloc

  /** alloc: open today's note called `name` for editing. */
  function Alloc(cal: Calendar, today: Day, name: string): (effects: seq<Effect>)
    ensures |effects| == 1 && effects[0].OpenEditor? && !effects[0].readOnly
  {
    [OpenEditor(PathPreview(cal, today, name), false)]
  }

  /** The file alloc opens is read back as today's note with that name. */
  lemma AllocOpensTodaysNote(cal: Calendar, today: Day, name: string)
    requires ValidCalendar(cal) && Year1000 <= today <= DateMax
    requires '.' !in name && '/' !in name
    ensures |Alloc(cal, today, name)| == 1 && Alloc(cal, today, name)[0].OpenEditor?
    ensures var d := DataFromPath(cal, Alloc(cal, today, name)[0].path);
      d.Ok? && d.value.date == today && d.value.dateStr == cal.format(today) && d.value.name == name
  {
    PreviewRoundTrip(cal, today, name);
  }

  // ---------------------------------------------------------------- ls

  /** The records ls shows: all of them in date order, or with a maximum age of
      `x` days those dated from `from_today(-x)` up to today; an age that moves
      that first day out of the range of dates is the OverflowError. */
  function LsSelection(cs: seq<Context>, maxAge: Option<real>, today: Day): (r: Result<seq<Context>, Error>)
    ensures maxAge.None? ==> r == Ok(SortByDate(cs))
    ensures maxAge.Some? ==>
      (r.Err? <==> FromTodayReal(today, -maxAge.value).None?)
    ensures r.Err? ==> r.error == DateOverflow(-maxAge.value)
    ensures r.Ok? ==> SortedByDate(r.value)
    ensures maxAge.Some? && r.Ok? ==>
      r.value == ListContexts(cs, FromTodayReal(today, -maxAge.value).value, today)
  {
    if maxAge.None? then Ok(SortByDate(cs))
    else
      var begin := FromTodayReal(today, -maxAge.value);
      if begin.None? then Err(DateOverflow(-maxAge.value))
      else Ok(ListContexts(cs, begin.value, today))
  }

  /** A positive age `x` starts the listing `x` days ago, rounded to whole
      microseconds and then up to whole days; it never starts after today. */
  lemma LsSelectionStart(today: Day, x: real)
    requires x > 0.0
    requires FromTodayReal(today, -x).Some?
    ensures var begin := FromTodayReal(today, -x).value;
      && begin <= today
      && begin as real - HalfMicro <= today as real - x <= begin as real + 1.0 - HalfMicro
  {
  }

  /** `--max-age 1.5` lists from two days ago; `--max-age 1.000000000001`
      lists from yesterday, since the excess is below half a microsecond. */
  lemma LsSelectionStartExamples(today: Day)
    requires DateMin + 2 <= today <= DateMax
    ensures FromTodayReal(today, -1.5) == Some(today - 2)
    ensures FromTodayReal(today, -1.000000000001) == Some(today - 1)
  {
    assert RoundHalfEven(-1.5 * MicrosPerDay as real) == -129600000000;
    assert RoundHalfEven(-1.000000000001 * MicrosPerDay as real) == -MicrosPerDay;
  }

  /** The line ls prints for a record: with -sf the file name, else with -sn the
      name, else the id, the date text and the name separated by tabs. */
  function LsLine(c: Context, showFilenames: bool, showNames: bool): (line: string)
    reads c
    ensures showFilenames ==> line == c.filename
    ensures !showFilenames && showNames ==> line == c.name
    ensures !showFilenames && !showNames ==> line == Join([IntText(c.id), c.dateStr, c.name], '\t')
  {
    if showFilenames then c.filename
    else if showNames then c.name
    else Join([IntText(c.id), c.dateStr, c.name], '\t')
  }

  /** The default line splits back into the record's fields at its tabs, and its
      first field reads back as the id that view looks up. */
  lemma LsDefaultLineFields(c: Context)
    requires '\t' !in c.dateStr && '\t' !in c.name
    ensures Split(LsLine(c, false, false), '\t') == [IntText(c.id), c.dateStr, c.name]
    ensures ParseInt(Split(LsLine(c, false, false), '\t')[0]) == Some(c.id)
  {
    var parts := [IntText(c.id), c.dateStr, c.name];
    assert '\t' !in IntText(c.id);
    assert forall k :: 0 <= k < |parts| ==> '\t' !in parts[k];
    SplitJoin(parts, '\t');
    IntTextRoundTrip(c.id);
  }

  /** The printing loop of ls: one line per record, in order; the records of
      today are printed in green. */
  method LsLines(cal: Calendar, contexts: seq<Context>, today: Day, showFilenames: bool, showNames: bool)
    returns (out: seq<Effect>)
    ensures |out| == |contexts|
    ensures forall i :: 0 <= i < |contexts| ==>
      && (out[i].Echo? || out[i].EchoGreen?)
      && out[i].line == LsLine(contexts[i], showFilenames, showNames)
      && (out[i].EchoGreen? <==> contexts[i].dateStr == cal.format(today))
  {
    out := [];
    var todayStr := cal.format(today);
    for i := 0 to |contexts|
      invariant |out| == i
      invariant forall j :: 0 <= j < i ==>
        && (out[j].Echo? || out[j].EchoGreen?)
        && out[j].line == LsLine(contexts[j], showFilenames, showNames)
        && (out[j].EchoGreen? <==> contexts[j].dateStr == todayStr)
    {
      var context := contexts[i];
      var outputStr := Join([IntText(context.id), context.dateStr, context.name], '\t');
      if showFilenames {
        outputStr := context.filename;
      } else if showNames {
        outputStr := context.name;
      }
      if context.dateStr == todayStr {
        out := out + [EchoGreen(outputStr)];
      } else {
        out := out + [Echo(outputStr)];
      }
    }
  }

  /** ls: one line per selected record, in date order; the records of today are
      printed in green; nothing is printed when no record is selected. */
  method Ls(cal: Calendar, cs: seq<Context>, today: Day, maxAge: Option<real>,
            showFilenames: bool, showNames: bool)
    returns (out: seq<Effect>, crash: Option<Error>)
    ensures var sel := LsSelection(cs, maxAge, today);
      && (sel.Err? ==> out == [] && crash == Some(sel.error))
      && (sel.Ok? ==>
        && crash.None?
        && |out| == |sel.value|
        && forall i :: 0 <= i < |sel.value| ==>
          && (out[i].Echo? || out[i].EchoGreen?)
          && out[i].line == LsLine(sel.value[i], showFilenames, showNames)
          && (out[i].EchoGreen? <==> sel.value[i].dateStr == cal.format(today)))
  {
    var selected := LsSelection(cs, maxAge, today);
    if selected.Err? {
      return [], Some(selected.error);
    }
    var contexts := selected.value;
    if |contexts| == 0 {
      return [], None;
    }
    out := LsLines(cal, contexts, today, showFilenames, showNames);
    crash := None;
  }

  // ---------------------------------------------------------------- fsearch

  /** The preview of a note: its lines run together, then cut or padded to 30
      characters. */
  function Preview(content: string): (p: string)
    ensures |p| == 30 && NoLineBreaks(p)
    ensures forall i :: 0 <= i < 30 ==>
      p[i] == if i < |StripLineBreaks(content)| then StripLineBreaks(content)[i] else ' '
    ensures forall i :: 0 <= i < 30 ==> p[i] == ' ' || p[i] in content
  {
    var flat := StripLineBreaks(content);
    assert forall i :: 0 <= i < |flat| ==> flat[i] in content by {
      forall i | 0 <= i < |flat| ensures flat[i] in content {
        assert flat[i] in multiset(flat);
      }
    }
    Padded(flat, 30)
  }

  /** The line fsearch prints for a record whose file holds `content`. */
  function SearchLine(c: Context, content: string): string
    reads c
  {
    Join([IntText(c.id), c.dateStr, Preview(content), c.name], '\t')
  }

  /** format_search_result: run the note's lines together, pad the result to 30
      characters, and join the id, the date text, the preview and the name with
      tabs. */
  method FormatSearchResult(c: Context, content: string) returns (line: string)
    ensures line == SearchLine(c, content)
  {
    var flat := StripLineBreaks(content);
    var preview := PadRight(flat, 30);
    line := Join([IntText(c.id), c.dateStr, preview, c.name], '\t');
  }

  /** A search line splits back into the id, the date text, the preview and the
      name when none of them holds a tab. */
  lemma SearchLineFields(c: Context, content: string)
    requires '\t' !in c.dateStr && '\t' !in c.name && '\t' !in content
    ensures Split(SearchLine(c, content), '\t') == [IntText(c.id), c.dateStr, Preview(content), c.name]
  {
    var parts := [IntText(c.id), c.dateStr, Preview(content), c.name];
    assert '\t' !in IntText(c.id);
    assert '\t' !in Preview(content);
    assert forall k :: 0 <= k < |parts| ==> '\t' !in parts[k];
    SplitJoin(parts, '\t');
  }

  /** fsearch: a search line for every record, in enumeration order; the first
      record whose file is missing ends the command with that error. */
  method FsearchCommand(fs: FileSystem, cs: seq<Context>, query: string)
    returns (out: seq<Effect>, crash: Option<Error>)
    ensures crash.None? <==> forall i :: 0 <= i < |cs| ==> cs[i].fullPath in fs.files
    ensures crash.None? ==> |out| == |cs|
    ensures crash.Some? ==>
      && |out| < |cs|
      && cs[|out|].fullPath !in fs.files
      && crash.value == FileNotFound(cs[|out|].fullPath)
    ensures forall i :: 0 <= i < |out| ==>
      cs[i].fullPath in fs.files && out[i] == Echo(SearchLine(cs[i], fs.files[cs[i].fullPath]))
  {
    var contexts := Fsearch(cs, query);
    out, crash := [], None;
    for i := 0 to |contexts|
      invariant |out| == i
      invariant forall j :: 0 <= j < i ==>
        cs[j].fullPath in fs.files && out[j] == Echo(SearchLine(cs[j], fs.files[cs[j].fullPath]))
    {
      var ctx := contexts[i];
      if ctx.fullPath !in fs.files {
        crash := Some(FileNotFound(ctx.fullPath));
        return;
      }
      var line := FormatSearchResult(ctx, fs.files[ctx.fullPath]);
      out := out + [Echo(line)];
    }
  }

  // ---------------------------------------------------------------- reuse

  /** The first of yesterday's notes, in date order, called `name`. */
  method FindYesterdays(cs: seq<Context>, today: Day, name: string) returns (found: Option<Context>)
    ensures found == FirstMatch(ListContexts(cs, today - 1, today - 1), NameField(name))
  {
    var yesterday := FromToday(today, -1);
    var yesterdayContexts := ListContexts(cs, yesterday, yesterday);
    found := FindContextBy(yesterdayContexts, NameField(name));
  }

  /** What reuse does once the note to reuse is known: nothing but a message
      when there is none, otherwise open today's note of that name, first
      copying the found note into it when it does not exist yet. */
  method ReuseFound(fs: FileSystem, target: string, name: string, found: Option<Context>)
    returns (out: seq<Effect>, crash: Option<Error>)
    modifies fs
    ensures found.None? ==>
      && out == [Echo("Context with name " + name + " not found")] && crash.None?
      && fs.files == old(fs.files)
    ensures found.Some? && target in old(fs.files) ==>
      && out == [OpenEditor(target, false)] && crash.None?
      && fs.files == old(fs.files)
    ensures found.Some? && target !in old(fs.files) && found.value.fullPath !in old(fs.files) ==>
      && out == [] && crash == Some(FileNotFound(found.value.fullPath))
      && fs.files == old(fs.files)
    ensures found.Some? && target !in old(fs.files) && found.value.fullPath in old(fs.files) ==>
      && out == [OpenEditor(target, false)] && crash.None?
      && fs.files == old(fs.files)[target := old(fs.files)[found.value.fullPath]]
    ensures forall p :: p in old(fs.files) ==> p in fs.files && fs.files[p] == old(fs.files)[p]
    ensures forall p :: p in fs.files ==> p in old(fs.files) || p == target
  {
    out, crash := [], None;
    if found.None? {
      out := [Echo("Context with name " + name + " not found")];
      return;
    }
    crash := fs.CopyIfAbsent(found.value.fullPath, target);
    if crash.Some? {
      return;
    }
    out := [OpenEditor(target, false)];
  }

  /** reuse: find yesterday's note called `name` (the first one in date order)
      and open today's note of that name, first copying yesterday's content into
      it when today's note does not exist yet. An existing file is never
      overwritten, and nothing changes when there is no such note yesterday. */
  method Reuse(fs: FileSystem, cal: Calendar, cs: seq<Context>, today: Day, name: string)
    returns (out: seq<Effect>, crash: Option<Error>)
    modifies fs
    ensures var found := old(FirstMatch(ListContexts(cs, today - 1, today - 1), NameField(name)));
      var target := PathPreview(cal, today, name);
      && (found.None? ==>
            && out == [Echo("Context with name " + name + " not found")] && crash.None?
            && fs.files == old(fs.files))
      && (found.Some? && target in old(fs.files) ==>
            && out == [OpenEditor(target, false)] && crash.None?
            && fs.files == old(fs.files))
      && (found.Some? && target !in old(fs.files) && found.value.fullPath !in old(fs.files) ==>
            && out == [] && crash == Some(FileNotFound(found.value.fullPath))
            && fs.files == old(fs.files))
      && (found.Some? && target !in old(fs.files) && found.value.fullPath in old(fs.files) ==>
            && out == [OpenEditor(target, false)] && crash.None?
            && fs.files == old(fs.files)[target := old(fs.files)[found.value.fullPath]])
    ensures forall p :: p in old(fs.files) ==> p in fs.files && fs.files[p] == old(fs.files)[p]
    ensures forall p :: p in fs.files ==> p in old(fs.files) || p == PathPreview(cal, today, name)
  {
    var contextToReuse := FindYesterdays(cs, today, name);
    var newPath := PathPreview(cal, today, name);
    out, crash := ReuseFound(fs, newPath, name, contextToReuse);
  }

  // ---------------------------------------------------------------- view

  /** view: open the note whose id is `int(idText)` read-only; an unknown id is
      reported, and text that is not an integer ends the command with an error. */
  method View(cs: seq<Context>, idText: string) returns (out: seq<Effect>, crash: Option<Error>)
    ensures ParseInt(idText).None? ==> out == [] && crash == Some(InvalidId(idText))
    ensures ParseInt(idText).Some? ==>
      && crash.None?
      && match FirstMatch(cs, IdField(ParseInt(idText).value))
      case None => out == [Echo("Context not found")]
      case Some(c) => out == [OpenEditor(c.fullPath, true)]
  {
    out, crash := [], None;
    var found := FindContext(cs, idText);
    if found.Err? {
      crash := Some(found.error);
      return;
    }
    match found.value
    case None =>
      out := [Echo("Context not found")];
    case Some(c) =>
      out := [OpenEditor(c.fullPath, true)];
  }
}
