/** The note files: where they live, how their names are listed, and how a
    note's date and name are read from its file name and written into it. */
module Paths {
  import opened Wrappers
  import opened Text
  import opened Dates

  /** The fixed directory that holds every note. */
  const ContextsDir: string := "/home/santiago/daily-contexts"

  /** The extension of a note file. */
  const Extension: string := ".ctx"

  /** The conditions that end a command early with an uncaught exception. */
  datatype Error =
    | MalformedFilename(path: string)   // the date prefix of a note's name does not parse
    | InvalidId(text: string)           // `int(id)` rejects the text given to `view`
    | FileNotFound(path: string)        // a file read or copied is not there
    | DateOverflow(days: real)          // `from_today(days)` leaves date.min..date.max

  /** A parsed note, without its id. */
  datatype ContextData = ContextData(
    fullPath: string, filename: string, dateStr: string, date: Day, name: string)

  /** os.path.basename: everything after the last '/'. */
  function Basename(p: string): (r: string)
    ensures '/' !in r
  {
    if p == [] then []
    else if p[|p| - 1] == '/' then []
    else Basename(p[..|p| - 1]) + [p[|p| - 1]]
  }

  /** The base name of a path inside a directory is the entry's own name. */
  lemma {:induction false} BasenameOfEntry(dir: string, entry: string)
    requires '/' !in entry
    ensures Basename(dir + "/" + entry) == entry
  {
    var p := dir + "/" + entry;
    if entry != [] {
      var init := entry[..|entry| - 1];
      assert p[..|p| - 1] == dir + "/" + init;
      BasenameOfEntry(dir, init);
      assert init + [entry[|entry| - 1]] == entry;
    }
  }

  /** The entries that the glob `*.ctx` selects: not hidden, ending in ".ctx". */
  predicate IsContextFile(entry: string)
  {
    && |entry| >= |Extension|
    && entry[|entry| - |Extension|..] == Extension
    && entry[0] != '.'
  }

  /** contexts_paths: the full path of every note file among the directory's
      entries, in the order the directory lists them. */
  function ContextsPaths(entries: seq<string>): (paths: seq<string>)
    ensures |paths| <= |entries|
  {
    if entries == [] then []
    else
      var rest := ContextsPaths(entries[1..]);
      if IsContextFile(entries[0]) then [ContextsDir + "/" + entries[0]] + rest else rest
  }

  /** The listing holds the path of every note file of the directory and of
      nothing else. */
  lemma {:induction false} ContextsPathsSelectNotes(entries: seq<string>)
    ensures forall e :: e in entries && IsContextFile(e) ==> ContextsDir + "/" + e in ContextsPaths(entries)
    ensures forall p :: p in ContextsPaths(entries) ==>
      exists e :: e in entries && IsContextFile(e) && p == ContextsDir + "/" + e
  {
    if entries != [] {
      ContextsPathsSelectNotes(entries[1..]);
      assert forall e :: e in entries ==> e == entries[0] || e in entries[1..];
    }
  }

  /** data_from_path: the note's file name is the path's base name; its first ten
      characters are the date text, which must parse; its name is what follows
      the separator after the date, up to the first '.'. */
  function DataFromPath(cal: Calendar, path: string): (r: Result<ContextData, Error>)
    ensures r.Err? <==> cal.parse(SliceTo(Basename(path), 10)).None?
    ensures r.Err? ==> r.error == MalformedFilename(path)
    ensures r.Ok? ==>
      && r.value.fullPath == path
      && r.value.filename == Basename(path)
      && r.value.dateStr == SliceTo(r.value.filename, 10)
      && cal.parse(r.value.dateStr) == Some(r.value.date)
      && '.' !in r.value.name
      && r.value.name <= SliceFrom(r.value.filename, 11)
      && (|r.value.name| < |SliceFrom(r.value.filename, 11)| ==>
            SliceFrom(r.value.filename, 11)[|r.value.name|] == '.')
  {
    var file := Basename(path);
    var dateStr, rest := SliceTo(file, 10), SliceFrom(file, 11);
    match cal.parse(dateStr)
    case None => Err(MalformedFilename(path))
    case Some(date) => Ok(ContextData(path, file, dateStr, date, Split(rest, '.')[0]))
  }

  /** path_preview: the path of the note called `name` for the day `today`. */
  function PathPreview(cal: Calendar, today: Day, name: string): (p: string)
    ensures |p| >= |ContextsDir| + 1 + |Extension|
    ensures p[..|ContextsDir| + 1] == ContextsDir + "/"
    ensures p[|p| - |Extension|..] == Extension
  {
    var q := ContextsDir + "/" + cal.format(today) + "-" + name + Extension;
    assert q == (ContextsDir + "/") + (cal.format(today) + "-" + name + Extension);
    assert q == (ContextsDir + "/" + cal.format(today) + "-" + name) + Extension;
    ContextsDir + "/" + cal.format(today) + "-" + name + Extension
  }

  /** The file of a new note is one the glob picks up: a directory holding it
      lists exactly the path that path_preview built. */
  lemma PreviewListed(cal: Calendar, today: Day, name: string)
    requires ValidCalendar(cal) && Year1000 <= today <= DateMax
    ensures var file := cal.format(today) + "-" + name + Extension;
      && IsContextFile(file)
      && ContextsPaths([file]) == [PathPreview(cal, today, name)]
  {
    var text := cal.format(today);
    var file := text + "-" + name + Extension;
    assert IsDateText(text);
    assert file[0] == text[0];
    assert file[|file| - |Extension|..] == Extension;
    var none: seq<string> := [];
    assert [file][1..] == none;
    assert ContextsPaths([file]) == [ContextsDir + "/" + file] + ContextsPaths([]);
    assert ContextsDir + "/" + file == PathPreview(cal, today, name);
  }

  /** Reading back the path of a new note gives its date and name: the file name
      `<today>-<name>.ctx` parses to today's date text and date and to `name`,
      for every name without a '.' or a '/'. */
  lemma PreviewRoundTrip(cal: Calendar, today: Day, name: string)
    requires ValidCalendar(cal) && Year1000 <= today <= DateMax
    requires '.' !in name && '/' !in name
    ensures DataFromPath(cal, PathPreview(cal, today, name)) ==
      Ok(ContextData(PathPreview(cal, today, name), cal.format(today) + "-" + name + Extension,
                     cal.format(today), today, name))
  {
    var text := cal.format(today);
    var file := text + "-" + name + Extension;
    assert IsDateText(text);
    assert '/' !in file by {
      forall i | 0 <= i < |file| ensures file[i] != '/' {
        if i < 10 {
          assert file[i] == text[i];
        } else if i > 10 && i < 11 + |name| {
          assert file[i] == name[i - 11];
        }
      }
    }
    assert PathPreview(cal, today, name) == ContextsDir + "/" + file;
    BasenameOfEntry(ContextsDir, file);
    assert SliceTo(file, 10) == text;
    assert SliceFrom(file, 11) == name + [Extension[0]] + Extension[1..];
    SplitAfterPiece(name, '.', Extension[1..]);
  }
}
