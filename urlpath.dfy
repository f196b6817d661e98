/**
 * Deriving a storage directory and a per-locale file name from the URL of
 * the page a webmention targets (internal/path/path.go; main.go keeps a
 * copy of `dirFromUrl` and `trimOne` with the same code).
 *
 * `url.Parse` is a parameter: it yields the URL's path, or None when the
 * URL does not parse.  `path.Dir` and `filepath.Base` are modelled for
 * paths without `.` or `..` elements and without `//`, on which Go's
 * `Clean` has nothing left to normalise.
 */
module UrlPath {
  import opened Wrappers

  /** `url.Parse(u)` reduced to what is used of it: the path component. */
  type UrlParser = string -> Option<string>

  /** `strings.TrimPrefix`. */
  function TrimPrefix(s: string, prefix: string): (r: string)
    ensures prefix <= s ==> s == prefix + r
    ensures !(prefix <= s) ==> r == s
  {
    if prefix <= s then s[|prefix|..] else s
  }

  /** `strings.TrimSuffix`. */
  function TrimSuffix(s: string, suffix: string): (r: string)
    ensures |suffix| <= |s| && s[|s| - |suffix|..] == suffix ==> s == r + suffix
    ensures !(|suffix| <= |s| && s[|s| - |suffix|..] == suffix) ==> r == s
  {
    if |suffix| <= |s| && s[|s| - |suffix|..] == suffix then s[..|s| - |suffix|] else s
  }

  /** `trimmedPath`: the URL's path with at most one leading `/` removed. */
  function TrimmedPath(parseUrl: UrlParser, u: string): (p: Option<string>)
    ensures p.None? <==> parseUrl(u).None?
    ensures p.Some? && "/" <= parseUrl(u).value ==> parseUrl(u).value == "/" + p.value
    ensures p.Some? && !("/" <= parseUrl(u).value) ==> parseUrl(u).value == p.value
  {
    match parseUrl(u)
    case None => None
    case Some(path) => Some(TrimPrefix(path, "/"))
  }

  /** Whether `strings.TrimPrefix(s, l)` changes `s`. */
  predicate Strips(l: string, s: string) {
    l != "" && l <= s
  }

  /** `trimOne`: remove the first entry of `vv` whose removal changes `s`,
      or nothing when no entry does. */
  function TrimOne(s: string, vv: seq<string>): (r: string)
    ensures |r| <= |s| && r == s[|s| - |r|..]
  {
    if |vv| == 0 then s
    else
      var r := TrimPrefix(s, vv[0]);
      if r != s then
        assert s[|vv[0]|..] == r;
        r
      else TrimOne(s, vv[1..])
  }

  /** When no entry strips anything, `s` comes back unchanged. */
  lemma {:induction false} TrimOneNoMatch(s: string, vv: seq<string>)
    requires forall i | 0 <= i < |vv| :: !Strips(vv[i], s)
    ensures TrimOne(s, vv) == s
  {
    if |vv| > 0 {
      TrimOneNoMatch(s, vv[1..]);
    }
  }

  /** Otherwise exactly the first entry that strips is removed: `s` is that
      entry followed by the result. */
  lemma {:induction false} TrimOneFirstMatch(s: string, vv: seq<string>, i: nat)
    requires i < |vv| && Strips(vv[i], s)
    requires forall j | 0 <= j < i :: !Strips(vv[j], s)
    ensures s == vv[i] + TrimOne(s, vv)
  {
    if i > 0 {
      TrimOneFirstMatch(s, vv[1..], i - 1);
    }
  }

  /** An empty entry never changes what `trimOne` does: it is skipped
      wherever it stands in the list. */
  lemma {:induction false} TrimOneSkipsEmpty(s: string, a: seq<string>, b: seq<string>)
    ensures TrimOne(s, a + [""] + b) == TrimOne(s, a + b)
  {
    if |a| == 0 {
      assert a + [""] + b == [""] + b && a + b == b;
      assert ([""] + b)[1..] == b;
      assert TrimPrefix(s, "") == s;
    } else {
      assert (a + [""] + b)[0] == a[0] && (a + b)[0] == a[0];
      assert (a + [""] + b)[1..] == a[1..] + [""] + b;
      assert (a + b)[1..] == a[1..] + b;
      TrimOneSkipsEmpty(s, a[1..], b);
    }
  }

  /** Index of the last `/` in `s`, or -1. */
  function LastSlash(s: string): (i: int)
    ensures -1 <= i < |s|
    ensures i >= 0 ==> s[i] == '/'
    ensures forall j | i < j < |s| :: s[j] != '/'
  {
    if |s| == 0 then -1
    else if s[|s| - 1] == '/' then |s| - 1
    else LastSlash(s[..|s| - 1])
  }

  /** `path.Dir` on the clean subset: everything before the last `/`,
      `"/"` when that is the only `/` in front, `"."` when there is none. */
  function Dir(p: string): (d: string)
    ensures (forall j | 0 <= j < |p| :: p[j] != '/') ==> d == "."
    ensures LastSlash(p) == 0 ==> d == "/"
    ensures LastSlash(p) > 0 ==> |d| == LastSlash(p) && p == d + "/" + p[|d| + 1..] &&
                                 forall j | |d| < j < |p| :: p[j] != '/'
  {
    var i := LastSlash(p);
    if i < 0 then "." else if i == 0 then "/" else p[..i]
  }

  /** `DirFromUrl`: the parent directory of the URL's path, after the
      first matching prefix is stripped, with no leading `/`; `""` when
      the URL does not parse. */
  function DirFromUrl(parseUrl: UrlParser, t: string, prefixes: seq<string>): (d: string)
    ensures parseUrl(t).None? ==> d == ""
  {
    match TrimmedPath(parseUrl, t)
    case None => ""
    case Some(p) => Parent(TrimOne(p, prefixes))
  }

  /** No two consecutive slashes: the paths on which the model of
      `path.Dir` coincides with Go's. */
  predicate NoDoubleSlash(s: string) {
    forall j | 0 <= j < |s| - 1 :: !(s[j] == '/' && s[j + 1] == '/')
  }

  /** The parent of a path `q`, as `DirFromUrl` computes it from `q`. */
  function Parent(q: string): string {
    TrimPrefix(Dir(q), "/")
  }

  /** `Parent` drops exactly the final segment of `q` (the page's slug, or
      the empty segment after a trailing slash) and one leading `/`. */
  lemma ParentDropsLastSegment(q: string)
    ensures LastSlash(q) < 0 ==> Parent(q) == "."
    ensures LastSlash(q) == 0 ==> Parent(q) == ""
    ensures LastSlash(q) > 0 ==>
              var last := q[LastSlash(q) + 1..];
              q == Parent(q) + "/" + last || q == "/" + Parent(q) + "/" + last
  {
    var i := LastSlash(q);
    if i > 0 {
      var d := Parent(q);
      assert Dir(q) == q[..i];
      assert q == q[..i] + "/" + q[i + 1..];
      if "/" <= q[..i] {
        assert q[..i] == "/" + d;
      } else {
        assert q[..i] == d;
      }
    } else if i < 0 {
      assert !("/" <= ".") by { assert "."[0] != '/'; }
    }
  }

  /** Without `//` in `q`, its parent never starts with `/`. */
  lemma ParentRelative(q: string)
    requires NoDoubleSlash(q)
    ensures var d := Parent(q);
            |d| == 0 || d[0] != '/'
  {
    var i := LastSlash(q);
    if i > 1 && q[0] == '/' {
      assert Dir(q) == q[..i];
      assert !(q[0] == '/' && q[1] == '/');
    }
  }

  /** On a URL whose path has no `//` the directory is relative: it never
      starts with `/`. */
  lemma DirFromUrlRelative(parseUrl: UrlParser, t: string, prefixes: seq<string>)
    requires parseUrl(t).Some? ==> NoDoubleSlash(parseUrl(t).value)
    ensures var d := DirFromUrl(parseUrl, t, prefixes);
            |d| == 0 || d[0] != '/'
  {
    match parseUrl(t)
    case None =>
    case Some(path) =>
      var p := TrimmedPath(parseUrl, t).value;
      var q := TrimOne(p, prefixes);
      SuffixNoDoubleSlash(path, |path| - |p|);
      SuffixNoDoubleSlash(p, |p| - |q|);
      ParentRelative(q);
  }

  lemma SuffixNoDoubleSlash(s: string, k: nat)
    requires k <= |s| && NoDoubleSlash(s)
    ensures NoDoubleSlash(s[k..])
  {
    forall j | 0 <= j < |s[k..]| - 1
      ensures !(s[k..][j] == '/' && s[k..][j + 1] == '/')
    {
      assert s[k..][j] == s[k + j] && s[k..][j + 1] == s[k + j + 1];
    }
  }

  /** `filepath.Ext`: the suffix from the last `.` of the final element. */
  function Ext(p: string): (e: string)
    ensures |e| <= |p| && e == p[|p| - |e|..]
    ensures e != "" ==> e[0] == '.' && forall j | 0 < j < |e| :: e[j] != '.' && e[j] != '/'
    ensures e == "" ==> forall j | LastSlash(p) < j < |p| :: p[j] != '.'
  {
    if |p| == 0 || p[|p| - 1] == '/' then ""
    else if p[|p| - 1] == '.' then "."
    else
      var e := Ext(p[..|p| - 1]);
      if e == "" then "" else e + [p[|p| - 1]]
  }

  /** The extension of `stem.ext`, for an `ext` without `.` or `/`, is `.ext`. */
  lemma {:induction false} ExtOfDotted(stem: string, ext: string)
    requires forall j | 0 <= j < |ext| :: ext[j] != '.' && ext[j] != '/'
    ensures Ext(stem + "." + ext) == "." + ext
  {
    if ext != "" {
      var p := stem + "." + ext;
      var init := ext[..|ext| - 1];
      var last := ext[|ext| - 1];
      assert ext == init + [last];
      assert p == (stem + "." + init) + [last];
      assert p[..|p| - 1] == stem + "." + init && p[|p| - 1] == last;
      ExtOfDotted(stem, init);
      assert ("." + init) + [last] == "." + ext;
    }
  }

  /** A path with a trailing slash has itself, less one leading `/`, as
      its parent. */
  lemma ParentOfTrailingSlash(q: string)
    ensures Parent(q + "/") == TrimPrefix(q, "/")
  {
    var p := q + "/";
    assert LastSlash(p) == |q|;
    assert p[..|q|] == q;
  }

  /** `p` without its trailing slashes. */
  function StripTrailingSlashes(p: string): (q: string)
    ensures q <= p && (q == "" || q[|q| - 1] != '/')
    ensures forall j | |q| <= j < |p| :: p[j] == '/'
  {
    if |p| > 0 && p[|p| - 1] == '/' then StripTrailingSlashes(p[..|p| - 1]) else p
  }

  /** `filepath.Base`: the final element, `"."` for the empty path and
      `"/"` for a path of slashes only. */
  function Base(p: string): (b: string)
    ensures b != ""
    ensures (forall j | 0 <= j < |p| :: p[j] != '/') && p != "" ==> b == p
    ensures p != "" && StripTrailingSlashes(p) == "" ==> b == "/"
    ensures var q := StripTrailingSlashes(p);
            q != "" ==>
              |b| <= |q| && b == q[|q| - |b|..] &&
              (forall j | 0 <= j < |b| :: b[j] != '/') &&
              (|b| == |q| || q[|q| - |b| - 1] == '/')
  {
    if p == "" then "."
    else
      var q := StripTrailingSlashes(p);
      if q == "" then "/" else q[LastSlash(q) + 1..]
  }

  /** The first entry of `prefixes` that is a string prefix of `p`. */
  function FirstPrefix(p: string, prefixes: seq<string>): (r: Option<string>)
    ensures r.None? <==> forall i | 0 <= i < |prefixes| :: !(prefixes[i] <= p)
    ensures forall i | 0 <= i < |prefixes| && prefixes[i] <= p ::
              (forall j | 0 <= j < i :: !(prefixes[j] <= p)) ==> r == Some(prefixes[i])
  {
    if |prefixes| == 0 then None
    else if prefixes[0] <= p then Some(prefixes[0])
    else FirstPrefix(p, prefixes[1..])
  }

  /** The locale-tagged name `base.pref.ext` built from `filename`. */
  function LocaleFilename(filename: string, pref: string): string {
    var ext := Ext(filename);
    var stem := TrimSuffix(Base(filename), ext);
    stem + "." + pref + "." + TrimPrefix(ext, ".")
  }

  /** For a plain file name `stem.ext`, the tagged name is `stem.pref.ext`:
      the tag goes between the stem and the extension, and removing
      `.pref` gives the name back. */
  lemma LocaleFilenameInsertsTag(stem: string, ext: string, pref: string)
    requires forall j | 0 <= j < |stem| :: stem[j] != '/'
    requires forall j | 0 <= j < |ext| :: ext[j] != '.' && ext[j] != '/'
    ensures LocaleFilename(stem + "." + ext, pref) == stem + "." + pref + "." + ext
  {
    var filename := stem + "." + ext;
    ExtOfDotted(stem, ext);
    DottedHasNoSlash(stem, ext);
    assert Base(filename) == filename;
    TrimDottedExt(stem, ext);
  }

  /** A directory part of the file name does not survive: `dir/stem.ext`
      is tagged as `stem.pref.ext`, because only the base name is kept. */
  lemma LocaleFilenameDropsDirectory(dir: string, stem: string, ext: string, pref: string)
    requires forall j | 0 <= j < |stem| :: stem[j] != '/'
    requires forall j | 0 <= j < |ext| :: ext[j] != '.' && ext[j] != '/'
    ensures LocaleFilename(dir + "/" + stem + "." + ext, pref) == stem + "." + pref + "." + ext
  {
    var name := stem + "." + ext;
    var filename := dir + "/" + name;
    assert filename == (dir + "/" + stem) + "." + ext;
    ExtOfDotted(dir + "/" + stem, ext);
    DottedHasNoSlash(stem, ext);
    BaseOfNested(dir, name);
    TrimDottedExt(stem, ext);
  }

  lemma BaseOfNested(dir: string, name: string)
    requires name != "" && forall j | 0 <= j < |name| :: name[j] != '/'
    ensures Base(dir + "/" + name) == name
  {
    var p := dir + "/" + name;
    assert p[|p| - 1] == name[|name| - 1];
    assert StripTrailingSlashes(p) == p;
    assert p[|dir|] == '/';
    forall j | |dir| < j < |p| ensures p[j] != '/' {
      assert p[j] == name[j - |dir| - 1];
    }
    assert LastSlash(p) == |dir|;
    assert p[|dir| + 1..] == name;
  }

  lemma DottedHasNoSlash(stem: string, ext: string)
    requires forall j | 0 <= j < |stem| :: stem[j] != '/'
    requires forall j | 0 <= j < |ext| :: ext[j] != '/'
    ensures forall j | 0 <= j < |stem + "." + ext| :: (stem + "." + ext)[j] != '/'
  {
    var filename := stem + "." + ext;
    forall j | 0 <= j < |filename| ensures filename[j] != '/' {
      if j < |stem| { assert filename[j] == stem[j]; }
      else if j > |stem| { assert filename[j] == ext[j - |stem| - 1]; }
    }
  }

  lemma TrimDottedExt(stem: string, ext: string)
    ensures TrimSuffix(stem + "." + ext, "." + ext) == stem
    ensures TrimPrefix("." + ext, ".") == ext
  {
    var filename := stem + "." + ext;
    assert filename == stem + ("." + ext);
    assert filename[|filename| - |"." + ext|..] == "." + ext;
  }

  /** `FilenameFromUrl`: `filename` tagged with the first prefix that
      begins the URL's trimmed path, unchanged when none does, `""` when
      the URL does not parse. */
  function FilenameFromUrl(parseUrl: UrlParser, t: string, prefixes: seq<string>,
                           filename: string): (r: string)
    ensures parseUrl(t).None? ==> r == ""
    ensures parseUrl(t).Some? &&
            (forall i | 0 <= i < |prefixes| :: !(prefixes[i] <= TrimmedPath(parseUrl, t).value))
            ==> r == filename
    ensures parseUrl(t).Some? ==>
              forall i | 0 <= i < |prefixes| && prefixes[i] <= TrimmedPath(parseUrl, t).value ::
                (forall j | 0 <= j < i :: !(prefixes[j] <= TrimmedPath(parseUrl, t).value))
                ==> r == LocaleFilename(filename, prefixes[i])
  {
    match TrimmedPath(parseUrl, t)
    case None => ""
    case Some(p) =>
      var first := FirstPrefix(p, prefixes);
      if first.None? then filename else LocaleFilename(filename, first.value)
  }

  /** A URL whose path is `/pref/d/`, where `pref` is the first prefix that
      strips anything, is stored under `d`. */
  lemma DirFromUrlUnderPrefix(parseUrl: UrlParser, t: string, prefixes: seq<string>, i: nat, d: string)
    requires i < |prefixes| && prefixes[i] != ""
    requires forall j | 0 <= j < i :: !Strips(prefixes[j], prefixes[i] + "/" + d + "/")
    requires parseUrl(t) == Some("/" + (prefixes[i] + "/" + d + "/"))
    ensures DirFromUrl(parseUrl, t, prefixes) == d
  {
    var q := "/" + d;
    var p := prefixes[i] + "/" + d + "/";
    TrimmedPathOf(parseUrl, t, p);
    var r := TrimOne(p, prefixes);
    TrimOneFirstMatch(p, prefixes, i);
    Regroup(prefixes[i], d);
    CancelPrefix(prefixes[i], r, q + "/");
    ParentOfTrailingSlash(q);
    TrimLeadingSlash(d);
    DirFromUrlIsParent(parseUrl, t, prefixes, p);
  }

  lemma Regroup(a: string, d: string)
    ensures a + "/" + d + "/" == a + (("/" + d) + "/")
  {
  }

  lemma TrimmedPathOf(parseUrl: UrlParser, t: string, p: string)
    requires parseUrl(t) == Some("/" + p)
    ensures TrimmedPath(parseUrl, t) == Some(p)
  {
    var tp := TrimmedPath(parseUrl, t).value;
    assert "/" <= "/" + p;
    CancelPrefix("/", tp, p);
  }

  lemma TrimLeadingSlash(d: string)
    ensures TrimPrefix("/" + d, "/") == d
  {
    assert "/" <= "/" + d;
    CancelPrefix("/", TrimPrefix("/" + d, "/"), d);
  }

  lemma DirFromUrlIsParent(parseUrl: UrlParser, t: string, prefixes: seq<string>, p: string)
    requires TrimmedPath(parseUrl, t) == Some(p)
    ensures DirFromUrl(parseUrl, t, prefixes) == Parent(TrimOne(p, prefixes))
  {
  }

  lemma CancelPrefix(a: string, b: string, c: string)
    requires a + b == a + c
    ensures b == c
  {
    assert b == (a + b)[|a|..];
    assert c == (a + c)[|a|..];
  }

  /** A URL whose path is `/pref` followed by anything, where `pref` is the
      first prefix that begins it, tags `stem.ext` as `stem.pref.ext`. */
  lemma FilenameFromUrlUnderPrefix(parseUrl: UrlParser, t: string, prefixes: seq<string>, i: nat,
                                   rest: string, stem: string, ext: string)
    requires i < |prefixes|
    requires forall j | 0 <= j < i :: !(prefixes[j] <= prefixes[i] + rest)
    requires parseUrl(t) == Some("/" + (prefixes[i] + rest))
    requires forall j | 0 <= j < |stem| :: stem[j] != '/'
    requires forall j | 0 <= j < |ext| :: ext[j] != '.' && ext[j] != '/'
    ensures FilenameFromUrl(parseUrl, t, prefixes, stem + "." + ext) == stem + "." + prefixes[i] + "." + ext
  {
    TrimmedPathOf(parseUrl, t, prefixes[i] + rest);
    LocaleFilenameInsertsTag(stem, ext, prefixes[i]);
  }
}
