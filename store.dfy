/**
 * Saving fetched mentions (main.go): the read-modify-write merge of one
 * record into one stored file (`saveToFile`), the file under a content
 * directory (`saveToContentDir`), the directory a record's target URL
 * suggests (`suggestDir`, `saveToDir`), and the loop over a batch that
 * falls back to the content root (`saveToDirs`).
 *
 * The file system is a value: a map from path to the document stored
 * there.  Whether `ioutil.WriteFile` succeeds at a path is the parameter
 * `canWrite`; a write that fails leaves the file as it was.
 */
module Store {
  import opened Wrappers
  import opened Json
  import opened Failures
  import opened UrlPath
  import opened Records
  import opened Pages

  /** What each path holds: a decoded document, or None for bytes that do
      not decode as JSON.  Paths not in the map cannot be read. */
  type Files = map<string, Option<Json>>

  /** The collaborators the code calls into and the model leaves open. */
  datatype Env = Env(parseUrl: UrlParser, parseTime: TimeParser, canWrite: string -> bool)

  /** The settings the saving code reads (`cfg` less the fetch settings). */
  datatype Config = Config(filename: string, useJF2: bool, tlo: bool,
                           contentDir: string, squashLeft: seq<string>)

  /** The file system after an operation, and the error it reports. */
  datatype Outcome = Outcome(files: Files, err: Option<Error>)

  /** `filepath.Join` of two clean relative paths (no `.`/`..` elements, no
      `//`, no trailing `/`): an empty or `.` element adds nothing, and two
      ordinary paths are joined by one `/`. */
  function JoinPath(a: string, b: string): (p: string)
    ensures b == "" || b == "." ==> p == (if a == "" then b else a)
    ensures a == "" || a == "." ==> b != "" && b != "." ==> p == b
    ensures a != "" && a != "." && b != "" && b != "." ==>
              |p| == |a| + 1 + |b| && p[..|a|] == a && p[|a|] == '/' && p[|a| + 1..] == b
  {
    if a == "" then b
    else if b == "" || b == "." then a
    else if a == "." then b
    else a + "/" + b
  }

  /** `readFile`: the records stored at `path`, in whichever shape. */
  function ReadFile(files: Files, path: string): Result<seq<Json>, Error> {
    if path in files then ParsePage(files[path]) else Failure(NotFound(path))
  }

  /** The records `saveToFile` finds at `path`: a file that is missing or
      unreadable counts as empty. */
  function Stored(files: Files, path: string): seq<Json> {
    ReadFile(files, path).GetOr([])
  }

  /** `writeFile`: store `mm` at `c.filename` in the shape `c` selects. */
  function WriteFile(files: Files, env: Env, mm: seq<Json>, c: Config): (o: Outcome)
    ensures env.canWrite(c.filename) ==>
              o.err == None && c.filename in o.files &&
              Stored(o.files, c.filename) == mm &&
              o.files == files[c.filename := o.files[c.filename]]
    ensures env.canWrite(c.filename) ==> o.files[c.filename] == Some(Envelope(mm, c.tlo, c.useJF2))
    ensures !env.canWrite(c.filename) ==> o == Outcome(files, Some(WriteFailed(c.filename)))
  {
    if env.canWrite(c.filename) then
      EnvelopeRoundTrip(mm, c.tlo, c.useJF2);
      Outcome(files[c.filename := Some(Envelope(mm, c.tlo, c.useJF2))], None)
    else
      Outcome(files, Some(WriteFailed(c.filename)))
  }

  /** Reading a file back after a successful write gives exactly the records
      written, and every other path reads as before. */
  lemma ReadAfterWrite(files: Files, env: Env, mm: seq<Json>, c: Config)
    requires env.canWrite(c.filename)
    ensures var o := WriteFile(files, env, mm, c);
            && ReadFile(o.files, c.filename) == Success(mm)
            && forall p | p != c.filename :: ReadFile(o.files, p) == ReadFile(files, p)
  {
    EnvelopeRoundTrip(mm, c.tlo, c.useJF2);
  }

  /** Reading fails exactly when the file is missing (a not-found error), does
      not decode, or holds neither an array nor an object. */
  lemma ReadFileFails(files: Files, path: string)
    ensures ReadFile(files, path).Failure? <==>
              path !in files || files[path].None? ||
              !(files[path].value.Arr? || files[path].value.Obj?)
    ensures path !in files ==> ReadFile(files, path) == Failure(NotFound(path))
  {
  }

  /** Some entry of `mm` is the same mention as `m`. */
  predicate Present(parseTime: TimeParser, mm: seq<Json>, m: Json) {
    exists i | 0 <= i < |mm| :: SameMention(parseTime, mm[i], m)
  }

  /** The list `saveToFile` leaves: unchanged when `m` is already there,
      else `m` appended at the end. */
  function Merge(parseTime: TimeParser, mm: seq<Json>, m: Json): seq<Json> {
    if Present(parseTime, mm, m) then mm else mm + [m]
  }

  /** Merging keeps every earlier entry, in place and in order, and adds at
      most the new record, at the end. */
  lemma MergeKeepsEntries(parseTime: TimeParser, mm: seq<Json>, m: Json)
    ensures var r := Merge(parseTime, mm, m);
            mm <= r && (r == mm || r == mm + [m])
    ensures Merge(parseTime, mm, m) == mm <==> Present(parseTime, mm, m)
  {
    if !Present(parseTime, mm, m) {
      assert |mm + [m]| != |mm|;
    }
  }

  /** A record that has an identity is found again once merged: merging it
      a second time changes nothing. */
  lemma MergeIdempotent(parseTime: TimeParser, mm: seq<Json>, m: Json)
    requires HasIdentity(parseTime, m)
    ensures Merge(parseTime, Merge(parseTime, mm, m), m) == Merge(parseTime, mm, m)
  {
    if !Present(parseTime, mm, m) {
      var r := mm + [m];
      SameMentionReflexive(parseTime, m);
      assert SameMention(parseTime, r[|mm|], m);
    }
  }

  /** A record without an identity is never found: it is appended on every
      merge. */
  lemma MergeWithoutIdentityAppends(parseTime: TimeParser, mm: seq<Json>, m: Json)
    requires !HasIdentity(parseTime, m)
    ensures Merge(parseTime, mm, m) == mm + [m]
    ensures Merge(parseTime, Merge(parseTime, mm, m), m) == mm + [m, m]
  {
    assert !Present(parseTime, mm, m);
    assert !Present(parseTime, mm + [m], m);
    assert mm + [m] + [m] == mm + [m, m];
  }

  /** What `saveToFile` does to the file system and reports. */
  function SaveToFileOutcome(files: Files, env: Env, m: Json, c: Config): Outcome {
    var mm := Stored(files, c.filename);
    if Present(env.parseTime, mm, m) then Outcome(files, None)
    else WriteFile(files, env, mm + [m], c)
  }

  /** `saveToFile`: read the file, stop at the first entry that is the same
      mention, otherwise append the record and write the file back. */
  method SaveToFile(files: Files, env: Env, m: Json, c: Config) returns (o: Outcome)
    ensures o == SaveToFileOutcome(files, env, m, c)
  {
    var mm := ReadFile(files, c.filename).GetOr([]);
    var i := 0;
    while i < |mm|
      invariant 0 <= i <= |mm|
      invariant forall j | 0 <= j < i :: !SameMention(env.parseTime, mm[j], m)
    {
      if SameMention(env.parseTime, mm[i], m) {
        return Outcome(files, None);
      }
      i := i + 1;
    }
    mm := mm + [m];
    o := WriteFile(files, env, mm, c);
  }

  /** A save either succeeds, leaving the merged list at the path and every
      other path as it was, or fails only because the merge needed a write
      that was refused, and then changes nothing. */
  lemma SaveToFileMerges(files: Files, env: Env, m: Json, c: Config)
    ensures var o := SaveToFileOutcome(files, env, m, c);
            var mm := Stored(files, c.filename);
            && (o.err.None? ==>
                  Stored(o.files, c.filename) == Merge(env.parseTime, mm, m) &&
                  forall p | p != c.filename :: Stored(o.files, p) == Stored(files, p))
            && (o.err.Some? <==> !Present(env.parseTime, mm, m) && !env.canWrite(c.filename))
            && (o.err.Some? ==> o == Outcome(files, Some(WriteFailed(c.filename))))
  {
  }

  /** A save leaves the file system unchanged and succeeds exactly when the
      file already holds the same mention. */
  lemma SaveToFileNoOp(files: Files, env: Env, m: Json, c: Config)
    ensures SaveToFileOutcome(files, env, m, c) == Outcome(files, None) <==>
            Present(env.parseTime, Stored(files, c.filename), m)
  {
    var mm := Stored(files, c.filename);
    if !Present(env.parseTime, mm, m) && env.canWrite(c.filename) {
      var o := SaveToFileOutcome(files, env, m, c);
      assert Stored(o.files, c.filename) == mm + [m];
      assert |mm + [m]| != |mm|;
    }
  }

  /** Saving a record with an identity twice gives what saving it once
      gave: same files, same report. */
  lemma SaveToFileIdempotent(files: Files, env: Env, m: Json, c: Config)
    requires HasIdentity(env.parseTime, m)
    ensures var once := SaveToFileOutcome(files, env, m, c);
            SaveToFileOutcome(once.files, env, m, c) == once
  {
    var once := SaveToFileOutcome(files, env, m, c);
    SaveToFileMerges(files, env, m, c);
    if once.err.None? {
      var mm := Stored(files, c.filename);
      MergeIdempotent(env.parseTime, mm, m);
      MergeKeepsEntries(env.parseTime, Merge(env.parseTime, mm, m), m);
      SaveToFileNoOp(once.files, env, m, c);
    }
  }

  /** A record without an identity is stored again by every save. */
  lemma SaveToFileTwiceDuplicates(files: Files, env: Env, m: Json, c: Config)
    requires !HasIdentity(env.parseTime, m) && env.canWrite(c.filename)
    ensures var once := SaveToFileOutcome(files, env, m, c);
            Stored(SaveToFileOutcome(once.files, env, m, c).files, c.filename) ==
            Stored(files, c.filename) + [m, m]
  {
    var mm := Stored(files, c.filename);
    var once := SaveToFileOutcome(files, env, m, c);
    MergeWithoutIdentityAppends(env.parseTime, mm, m);
    SaveToFileMerges(files, env, m, c);
    SaveToFileMerges(once.files, env, m, c);
  }

  /** What `saveToContentDir` does: save into `filename` under the
      configured content directory; an empty file name is an error. */
  function SaveToContentDirOutcome(files: Files, env: Env, m: Json, c: Config): Outcome {
    if c.filename == "" then Outcome(files, Some(NoFilename))
    else SaveToFileOutcome(files, env, m, c.(filename := JoinPath(c.contentDir, c.filename)))
  }

  /** `saveToContentDir`. */
  method SaveToContentDir(files: Files, env: Env, m: Json, c: Config) returns (o: Outcome)
    ensures c.filename == "" ==> o == Outcome(files, Some(NoFilename))
    ensures c.filename != "" ==>
              o == SaveToFileOutcome(files, env, m, c.(filename := JoinPath(c.contentDir, c.filename)))
  {
    if c.filename == "" {
      return Outcome(files, Some(NoFilename));
    }
    o := SaveToFile(files, env, m, c.(filename := JoinPath(c.contentDir, c.filename)));
  }

  /** `suggestDir`: the directory derived from the record's target, with
      success whenever the target is a string, even one that is not a URL
      (the directory is then empty). */
  function SuggestDir(env: Env, m: Json, c: Config): (dir: Option<string>)
    ensures dir.Some? <==> StringField(m, TargetKeys).Some?
    ensures dir.Some? ==> dir.value == DirFromUrl(env.parseUrl, StringField(m, TargetKeys).value, c.squashLeft)
    ensures dir.Some? && env.parseUrl(StringField(m, TargetKeys).value).None? ==> dir == Some("")
  {
    match Either(Fields(m), TargetKeys)
    case Str(t) => Some(DirFromUrl(env.parseUrl, t, c.squashLeft))
    case _ => None
  }

  /** The settings `saveToDir` saves with: the content directory extended
      by the suggested directory. */
  function Routed(c: Config, dir: string): Config {
    c.(contentDir := JoinPath(c.contentDir, dir))
  }

  /** What `saveToDir` does: the file system after the routed save, and
      whether the record was saved there. */
  function SaveToDirOutcome(files: Files, env: Env, m: Json, c: Config): (Files, bool) {
    match SuggestDir(env, m, c)
    case None => (files, false)
    case Some(dir) =>
      var o := SaveToContentDirOutcome(files, env, m, Routed(c, dir));
      (o.files, o.err.None?)
  }

  /** `saveToDir`. */
  method SaveToDir(files: Files, env: Env, m: Json, c: Config) returns (files': Files, saved: bool)
    ensures (files', saved) == SaveToDirOutcome(files, env, m, c)
  {
    var dir := SuggestDir(env, m, c);
    if dir.Some? {
      var o := SaveToContentDir(files, env, m, Routed(c, dir.value));
      if o.err.None? {
        return o.files, true;
      }
    }
    return files, false;
  }

  /** One step of `saveToDirs`: the routed save, and when it did not save,
      the save into the content root. */
  function SaveOneOutcome(files: Files, env: Env, m: Json, c: Config): Outcome {
    var (routed, saved) := SaveToDirOutcome(files, env, m, c);
    if saved then Outcome(routed, None)
    else SaveToContentDirOutcome(routed, env, m, c)
  }

  /** What `saveToDirs` does: the records in order, stopping at the first
      one that cannot be saved even in the content root. */
  function SaveToDirsOutcome(files: Files, env: Env, mm: seq<Json>, c: Config): Outcome
    decreases |mm|
  {
    if mm == [] then Outcome(files, None)
    else
      var o := SaveOneOutcome(files, env, mm[0], c);
      if o.err.Some? then o else SaveToDirsOutcome(o.files, env, mm[1..], c)
  }

  /** `saveToDirs`. */
  method SaveToDirs(files: Files, env: Env, mm: seq<Json>, c: Config) returns (o: Outcome)
    ensures o == SaveToDirsOutcome(files, env, mm, c)
  {
    var cur := files;
    var i := 0;
    while i < |mm|
      invariant 0 <= i <= |mm|
      invariant SaveToDirsOutcome(files, env, mm, c) == SaveToDirsOutcome(cur, env, mm[i..], c)
    {
      assert mm[i..][0] == mm[i] && mm[i..][1..] == mm[i + 1..];
      var saved;
      cur, saved := SaveToDir(cur, env, mm[i], c);
      if !saved {
        var r := SaveToContentDir(cur, env, mm[i], c);
        if r.err.Some? {
          return r;
        }
        cur := r.files;
      }
      i := i + 1;
    }
    return Outcome(cur, None);
  }

  /** The file `saveToContentDir` saves into. */
  function RootPath(c: Config): string {
    JoinPath(c.contentDir, c.filename)
  }

  /** A record whose target suggests a directory, saved where the merged
      list can be written, lands in that directory's file and nowhere else. */
  lemma SaveOneRoutes(files: Files, env: Env, m: Json, c: Config, dir: string)
    requires SuggestDir(env, m, c) == Some(dir) && c.filename != ""
    requires env.canWrite(RootPath(Routed(c, dir)))
    ensures var o := SaveOneOutcome(files, env, m, c);
            var path := RootPath(Routed(c, dir));
            && o.err == None
            && Stored(o.files, path) == Merge(env.parseTime, Stored(files, path), m)
            && forall p | p != path :: Stored(o.files, p) == Stored(files, p)
  {
    var rc := Routed(c, dir);
    SaveToFileMerges(files, env, m, rc.(filename := RootPath(rc)));
  }

  /** With no string target, or when the routed file cannot take the record,
      the step is exactly a save into the content root. */
  lemma SaveOneFallsBack(files: Files, env: Env, m: Json, c: Config)
    requires c.filename != ""
    requires match SuggestDir(env, m, c)
             case None => true
             case Some(dir) =>
               var path := RootPath(Routed(c, dir));
               !Present(env.parseTime, Stored(files, path), m) && !env.canWrite(path)
    ensures SaveOneOutcome(files, env, m, c) == SaveToContentDirOutcome(files, env, m, c)
  {
    var dir := SuggestDir(env, m, c);
    if dir.Some? {
      var rc := Routed(c, dir.value);
      SaveToFileMerges(files, env, m, rc.(filename := RootPath(rc)));
    }
  }

  /** A target that is not a URL gives the empty directory, so the record
      is routed to the content root's own file. */
  lemma UnparsableTargetGoesToRoot(files: Files, env: Env, m: Json, c: Config)
    requires StringField(m, TargetKeys).Some?
    requires env.parseUrl(StringField(m, TargetKeys).value).None?
    ensures SuggestDir(env, m, c) == Some("")
    ensures RootPath(Routed(c, "")) == RootPath(c)
  {
  }

  /** Without a file name every non-empty batch fails at its first record
      and writes nothing. */
  lemma SaveToDirsNoFilename(files: Files, env: Env, mm: seq<Json>, c: Config)
    requires c.filename == "" && mm != []
    ensures SaveToDirsOutcome(files, env, mm, c) == Outcome(files, Some(NoFilename))
  {
  }

  /** A record with neither a target nor an identity (a bare string, say)
      must be written to the content root; when that path cannot be written
      (a content directory that does not exist) the batch fails there. */
  lemma SaveToDirsUnwritableRoot(files: Files, env: Env, m: Json, rest: seq<Json>, c: Config)
    requires c.filename != "" && !env.canWrite(RootPath(c))
    requires StringField(m, TargetKeys).None? && !HasIdentity(env.parseTime, m)
    ensures SaveToDirsOutcome(files, env, [m] + rest, c) == Outcome(files, Some(WriteFailed(RootPath(c))))
  {
    var mm := Stored(files, RootPath(c));
    MergeWithoutIdentityAppends(env.parseTime, mm, m);
    SaveOneFallsBack(files, env, m, c);
    assert ([m] + rest)[0] == m;
  }

  /** Saving a batch in two parts is saving it whole: the second part runs
      on what the first left, unless the first failed. */
  lemma {:induction false} SaveToDirsAppend(files: Files, env: Env, mm: seq<Json>, nn: seq<Json>, c: Config)
    ensures var o := SaveToDirsOutcome(files, env, mm, c);
            SaveToDirsOutcome(files, env, mm + nn, c) ==
            (if o.err.Some? then o else SaveToDirsOutcome(o.files, env, nn, c))
    decreases |mm|
  {
    if mm == [] {
      assert mm + nn == nn;
    } else {
      assert (mm + nn)[0] == mm[0] && (mm + nn)[1..] == mm[1..] + nn;
      var o := SaveOneOutcome(files, env, mm[0], c);
      if o.err.None? {
        SaveToDirsAppend(o.files, env, mm[1..], nn, c);
      }
    }
  }

  /** Every stored list of `f` is a prefix of the one at the same path in
      `g`: records are only ever added, at the end. */
  ghost predicate Grows(f: Files, g: Files) {
    forall p :: Stored(f, p) <= Stored(g, p)
  }

  lemma PresentGrows(parseTime: TimeParser, mm: seq<Json>, nn: seq<Json>, m: Json)
    requires Present(parseTime, mm, m) && mm <= nn
    ensures Present(parseTime, nn, m)
  {
    var i :| 0 <= i < |mm| && SameMention(parseTime, mm[i], m);
    assert nn[i] == mm[i];
  }

  /** A save only appends, and a failed save changes nothing. */
  lemma SaveToFileGrows(files: Files, env: Env, m: Json, c: Config)
    ensures var o := SaveToFileOutcome(files, env, m, c);
            Grows(files, o.files) && (o.err.Some? ==> o.files == files)
  {
    SaveToFileMerges(files, env, m, c);
    MergeKeepsEntries(env.parseTime, Stored(files, c.filename), m);
  }

  lemma SaveOneGrows(files: Files, env: Env, m: Json, c: Config)
    ensures var o := SaveOneOutcome(files, env, m, c);
            Grows(files, o.files) && (o.err.Some? ==> o.files == files)
  {
    var routed := files;
    var dir := SuggestDir(env, m, c);
    if dir.Some? && c.filename != "" {
      var rc := Routed(c, dir.value);
      SaveToFileGrows(files, env, m, rc.(filename := RootPath(rc)));
      routed := SaveToDirOutcome(files, env, m, c).0;
    }
    if c.filename != "" {
      SaveToFileGrows(routed, env, m, c.(filename := RootPath(c)));
    }
  }

  lemma {:induction false} SaveToDirsGrows(files: Files, env: Env, mm: seq<Json>, c: Config)
    ensures Grows(files, SaveToDirsOutcome(files, env, mm, c).files)
    decreases |mm|
  {
    if mm != [] {
      var o := SaveOneOutcome(files, env, mm[0], c);
      SaveOneGrows(files, env, mm[0], c);
      if o.err.None? {
        SaveToDirsGrows(o.files, env, mm[1..], c);
        var g := SaveToDirsOutcome(o.files, env, mm[1..], c).files;
        forall p ensures Stored(files, p) <= Stored(g, p) {
          assert Stored(files, p) <= Stored(o.files, p);
        }
      }
    }
  }

  /** Where a record is after it was saved: in its routed file, or in the
      root file with the routed file unable to take it. */
  ghost predicate Placed(files: Files, env: Env, m: Json, c: Config) {
    && c.filename != ""
    && match SuggestDir(env, m, c)
       case None => Present(env.parseTime, Stored(files, RootPath(c)), m)
       case Some(dir) =>
         var path := RootPath(Routed(c, dir));
         || Present(env.parseTime, Stored(files, path), m)
         || (!env.canWrite(path) && Present(env.parseTime, Stored(files, RootPath(c)), m))
  }

  /** A record with an identity that was saved is placed. */
  lemma SaveOnePlaces(files: Files, env: Env, m: Json, c: Config)
    requires HasIdentity(env.parseTime, m)
    requires SaveOneOutcome(files, env, m, c).err.None?
    ensures Placed(SaveOneOutcome(files, env, m, c).files, env, m, c)
  {
    var o := SaveOneOutcome(files, env, m, c);
    var dir := SuggestDir(env, m, c);
    var routed := files;
    if dir.Some? {
      var rc := Routed(c, dir.value);
      var path := RootPath(rc);
      var ro := SaveToFileOutcome(files, env, m, rc.(filename := path));
      SaveToFileMerges(files, env, m, rc.(filename := path));
      if ro.err.None? {
        MergeIdempotent(env.parseTime, Stored(files, path), m);
        MergeKeepsEntries(env.parseTime, Merge(env.parseTime, Stored(files, path), m), m);
        return;
      }
    }
    SaveToFileMerges(routed, env, m, c.(filename := RootPath(c)));
    MergeIdempotent(env.parseTime, Stored(routed, RootPath(c)), m);
    MergeKeepsEntries(env.parseTime, Merge(env.parseTime, Stored(routed, RootPath(c)), m), m);
  }

  /** Adding records elsewhere does not unplace a record. */
  lemma PlacedGrows(f: Files, g: Files, env: Env, m: Json, c: Config)
    requires Placed(f, env, m, c) && Grows(f, g)
    ensures Placed(g, env, m, c)
  {
    var root := RootPath(c);
    if Present(env.parseTime, Stored(f, root), m) {
      PresentGrows(env.parseTime, Stored(f, root), Stored(g, root), m);
    }
    var dir := SuggestDir(env, m, c);
    if dir.Some? {
      var path := RootPath(Routed(c, dir.value));
      if Present(env.parseTime, Stored(f, path), m) {
        PresentGrows(env.parseTime, Stored(f, path), Stored(g, path), m);
      }
    }
  }

  /** Saving a placed record again changes nothing and succeeds. */
  lemma PlacedSettles(files: Files, env: Env, m: Json, c: Config)
    requires Placed(files, env, m, c)
    ensures SaveOneOutcome(files, env, m, c) == Outcome(files, None)
  {
    var dir := SuggestDir(env, m, c);
    if dir.Some? {
      var rc := Routed(c, dir.value);
      SaveToFileMerges(files, env, m, rc.(filename := RootPath(rc)));
    }
    SaveToFileMerges(files, env, m, c.(filename := RootPath(c)));
  }

  /** Running `saveToDirs` again on the same batch, over what the first run
      left, gives the same files and the same report, as long as every record
      has an identity: nothing is stored twice, and a run that stopped at a
      record stops there again. */
  lemma {:induction false} SaveToDirsRerun(files: Files, env: Env, mm: seq<Json>, c: Config)
    requires forall i | 0 <= i < |mm| :: HasIdentity(env.parseTime, mm[i])
    ensures var o := SaveToDirsOutcome(files, env, mm, c);
            SaveToDirsOutcome(o.files, env, mm, c) == o
    decreases |mm|
  {
    if mm != [] {
      var o1 := SaveOneOutcome(files, env, mm[0], c);
      SaveOneGrows(files, env, mm[0], c);
      if o1.err.None? {
        var o := SaveToDirsOutcome(o1.files, env, mm[1..], c);
        SaveOnePlaces(files, env, mm[0], c);
        SaveToDirsGrows(o1.files, env, mm[1..], c);
        PlacedGrows(o1.files, o.files, env, mm[0], c);
        PlacedSettles(o.files, env, mm[0], c);
        SaveToDirsRerun(o1.files, env, mm[1..], c);
      }
    }
  }
}
