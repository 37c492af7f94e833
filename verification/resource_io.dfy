/** Path validation of `ResourceImporter` and `ResourceExporter`: a file's
    extension is taken as "." followed by the text after the last "." of its
    name, the importer checks existence and then that extension against the
    type its method reads, and the exporter accepts only ".pickle". */
module ResourceIo {
  import opened Wrappers

  /** Python's `str.split(sep)`: the pieces between occurrences of `sep`,
      always at least one, none containing `sep`. */
  function Split(s: string, sep: char): (parts: seq<string>)
    ensures |parts| >= 1
    ensures forall i :: 0 <= i < |parts| ==> sep !in parts[i]
    decreases |s|
  {
    if |s| == 0 then [""]
    else
      var rest := Split(s[1..], sep);
      if s[0] == sep then [""] + rest
      else
        assert forall i :: 1 <= i < |rest| ==> (rest[1..])[i - 1] == rest[i];
        [[s[0]] + rest[0]] + rest[1..]
  }

  /** The last piece of a split is the longest suffix free of the separator:
      it ends the string, and is either all of it or preceded by `sep`; a
      split into one piece is the whole string. */
  lemma {:induction false} LastPiece(s: string, sep: char)
    ensures var parts := Split(s, sep);
            var last := parts[|parts| - 1];
            && |last| <= |s| && s[|s| - |last|..] == last
            && (|last| < |s| ==> s[|s| - |last| - 1] == sep)
            && (|parts| == 1 <==> last == s)
    decreases |s|
  {
    if |s| > 0 {
      LastPiece(s[1..], sep);
      var rest := Split(s[1..], sep);
      var last := rest[|rest| - 1];
      assert s[1..][|s[1..]| - |last|..] == s[|s| - |last|..];
      if s[0] == sep {
        assert Split(s, sep)[|Split(s, sep)| - 1] == last;
      } else if |rest| > 1 {
        assert Split(s, sep)[|Split(s, sep)| - 1] == last;
      } else {
        assert Split(s, sep) == [[s[0]] + last];
        assert s == [s[0]] + s[1..];
      }
    }
  }

  /** Python's `sep.join(parts)`. */
  function Join(parts: seq<string>, sep: char): string
    requires |parts| >= 1
    decreases |parts|
  {
    if |parts| == 1 then parts[0] else parts[0] + [sep] + Join(parts[1..], sep)
  }

  /** Joining the pieces of a split gives back the string. */
  lemma {:induction false} JoinSplit(s: string, sep: char)
    ensures Join(Split(s, sep), sep) == s
    decreases |s|
  {
    if |s| > 0 {
      JoinSplit(s[1..], sep);
      var rest := Split(s[1..], sep);
      if s[0] == sep {
        assert ([""] + rest)[1..] == rest;
      } else {
        var parts := [[s[0]] + rest[0]] + rest[1..];
        if |rest| > 1 {
          assert parts[1..] == rest[1..];
          assert Join(rest, sep) == rest[0] + [sep] + Join(rest[1..], sep);
        }
        assert s == [s[0]] + s[1..];
      }
    }
  }

  /** Splitting a separator-free prefix glued to `rest` extends the first
      piece of `rest`'s split. */
  lemma {:induction false} SplitPrefix(a: string, rest: string, sep: char)
    requires sep !in a
    ensures Split(a + rest, sep) == [a + Split(rest, sep)[0]] + Split(rest, sep)[1..]
    decreases |a|
  {
    if |a| > 0 {
      SplitPrefix(a[1..], rest, sep);
      assert (a + rest)[1..] == a[1..] + rest;
      assert [a[0]] + (a[1..] + Split(rest, sep)[0]) == a + Split(rest, sep)[0];
    } else {
      var r := Split(rest, sep);
      assert a + rest == rest;
      assert a + r[0] == r[0];
      assert r == [r[0]] + r[1..];
    }
  }

  /** Splitting a join of separator-free pieces gives back the pieces. */
  lemma {:induction false} SplitJoin(parts: seq<string>, sep: char)
    requires |parts| >= 1
    requires forall i :: 0 <= i < |parts| ==> sep !in parts[i]
    ensures Split(Join(parts, sep), sep) == parts
    decreases |parts|
  {
    if |parts| == 1 {
      SplitPrefix(parts[0], "", sep);
      assert parts[0] + "" == parts[0];
    } else {
      var tail := Join(parts[1..], sep);
      SplitJoin(parts[1..], sep);
      SplitPrefix(parts[0], [sep] + tail, sep);
      assert parts[0] + [sep] + tail == parts[0] + ([sep] + tail);
      assert ([sep] + tail)[1..] == tail;
      assert Split([sep] + tail, sep) == [""] + parts[1..];
      assert parts[0] + "" == parts[0];
      assert parts == [parts[0]] + parts[1..];
    }
  }

  /** The extension as both classes compute it: "." followed by the last
      "."-separated piece of the name. It is the longest dot-free suffix of
      the name, so for a dotless name it is "." followed by the whole name. */
  function FileExtension(name: string): (ext: string)
    ensures |ext| >= 1 && ext[0] == '.' && '.' !in ext[1..]
    ensures |ext| - 1 <= |name| && name[|name| - (|ext| - 1)..] == ext[1..]
    ensures |ext| - 1 < |name| ==> name[|name| - |ext|] == '.'
    ensures '.' !in name ==> ext == "." + name
  {
    var parts := Split(name, '.');
    LastPiece(name, '.');
    var last := parts[|parts| - 1];
    assert ("." + last)[1..] == last;
    "." + last
  }

  /** A path: its directory components and its final component `name`. */
  datatype Path = Path(dirs: seq<string>, name: string)

  /** Why validation fails: both are assertion failures in the source. */
  datatype IoError = PathMissing | WrongExtension

  /** The importer's reading methods. */
  datatype ImportMethod = ImportCsv | ImportPickleToDf | ImportPickleToObject | ImportPickleToList

  /** The extension each reading method demands of its file. */
  function RequiredExtension(m: ImportMethod): (ext: string)
    ensures m.ImportCsv? <==> ext == ".csv"
    ensures !m.ImportCsv? <==> ext == ".pickle"
  {
    match m
    case ImportCsv => ".csv"
    case _ => ".pickle"
  }

  /** `ResourceImporter._validate_path`: the path must exist, which the file
      system answers through `existing`; only then is its extension compared
      with the requested type. */
  function ValidateImportPath(path: Path, fileType: string, existing: set<Path>): (r: Outcome<IoError>)
    ensures r.Pass? <==> path in existing && FileExtension(path.name) == fileType
    ensures path !in existing ==> r == Fail(PathMissing)
    ensures path in existing && FileExtension(path.name) != fileType ==> r == Fail(WrongExtension)
  {
    if path !in existing then Fail(PathMissing)
    else if FileExtension(path.name) != fileType then Fail(WrongExtension)
    else Pass
  }

  /** The validation step of each reading method. */
  function ValidateImport(m: ImportMethod, path: Path, existing: set<Path>): (r: Outcome<IoError>)
    ensures r.Pass? <==> path in existing && FileExtension(path.name) == RequiredExtension(m)
  {
    ValidateImportPath(path, RequiredExtension(m), existing)
  }

  /** The extensions the exporter supports. */
  const ExportFileTypes: seq<string> := [".pickle"]

  /** `ResourceExporter._validate_path`: the extension must be ".pickle";
      existence is not checked, since the file is about to be written. */
  function ValidateExportPath(path: Path): (r: Outcome<IoError>)
    ensures r.Pass? <==> FileExtension(path.name) == ".pickle"
    ensures r.Fail? ==> r.error == WrongExtension
  {
    if FileExtension(path.name) in ExportFileTypes then Pass else Fail(WrongExtension)
  }

  /** The extension ignores every dot but the last. */
  lemma ExtensionOfDottedName(name: string)
    requires name == "a.b.pickle"
    ensures FileExtension(name) == ".pickle"
  {
    var ext := FileExtension(name);
    assert name[3] == '.' && name[4..] == "pickle";
    assert |ext| - 1 == 6;
  }

  /** A name with the expected extension is exported. */
  lemma ExportAcceptsPickle(dirs: seq<string>, name: string)
    requires name == "results.pickle"
    ensures ValidateExportPath(Path(dirs, name)).Pass?
  {
    var ext := FileExtension(name);
    assert name[7] == '.' && name[8..] == "pickle";
  }

  /** An extension that is not last is ignored: "results.pickle.gz" is
      rejected by the exporter, as is an extension differing only in case. */
  lemma ExportRejectsOthers(dirs: seq<string>, gz: string, upper: string)
    requires gz == "results.pickle.gz" && upper == "results.PICKLE"
    ensures ValidateExportPath(Path(dirs, gz)) == Fail(WrongExtension)
    ensures ValidateExportPath(Path(dirs, upper)) == Fail(WrongExtension)
  {
    var e1 := FileExtension(gz);
    var e2 := FileExtension(upper);
  }

  /** A dotless name counts as its own extension: a file named just "pickle"
      passes the exporter, and one named "csv" passes the CSV importer when it
      exists. */
  lemma DotlessNameIsItsOwnExtension(dirs: seq<string>, existing: set<Path>, pickle: string, csv: string)
    requires pickle == "pickle" && csv == "csv"
    requires Path(dirs, csv) in existing
    ensures FileExtension(pickle) == ".pickle"
    ensures ValidateExportPath(Path(dirs, pickle)).Pass?
    ensures ValidateImport(ImportCsv, Path(dirs, csv), existing).Pass?
  {
    assert '.' !in pickle && '.' !in csv;
  }

  /** A missing file is rejected before its extension is looked at, whatever
      the method. */
  lemma MissingFileRejectedFirst(m: ImportMethod, path: Path, existing: set<Path>)
    requires path !in existing
    ensures ValidateImport(m, path, existing) == Fail(PathMissing)
  {
  }
}
