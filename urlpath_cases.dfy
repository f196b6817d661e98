/**
 * The expectations of internal/path/path_test.go, stated for any URL
 * parser that gives the two test URLs their usual paths, and the
 * consequences of plain (not segment-aware) prefix matching.
 */
module UrlPathCases {
  import opened Wrappers
  import opened UrlPath

  const Elevator := "https://evgenykuznetsov.org/posts/2024/elevator/"
  const Covid := "https://evgenykuznetsov.org/en/posts/2021/covid/"

  /** No prefix matches: only the trailing-slash placeholder is dropped. */
  lemma DirFromUrlNoPrefixCase(parseUrl: UrlParser)
    requires parseUrl(Elevator) == Some("/posts/2024/elevator/")
    ensures DirFromUrl(parseUrl, Elevator, ["en"]) == "posts/2024/elevator"
  {
    var q := "posts/2024/elevator";
    var p := q + "/";
    assert "/posts/2024/elevator/" == "/" + p;
    assert TrimmedPath(parseUrl, Elevator) == Some(p);
    assert !Strips("en", p) by { assert p[0] != 'e'; }
    TrimOneNoMatch(p, ["en"]);
    ParentOfTrailingSlash(q);
    assert !("/" <= q) by { assert q[0] != '/'; }
  }

  /** The locale prefix `en` is stripped before the parent is taken. */
  lemma DirFromUrlLocaleCase(parseUrl: UrlParser)
    requires parseUrl(Covid) == Some("/en/posts/2021/covid/")
    ensures DirFromUrl(parseUrl, Covid, ["en", "ru"]) == "posts/2021/covid"
  {
    var prefixes := ["en", "ru"];
    assert prefixes[0] == "en";
    assert "/en/posts/2021/covid/" == "/" + ("en" + "/" + "posts/2021/covid" + "/");
    DirFromUrlUnderPrefix(parseUrl, Covid, prefixes, 0, "posts/2021/covid");
  }

  /** No prefix begins the path: the file name is kept. */
  lemma FilenameFromUrlNoPrefixCase(parseUrl: UrlParser)
    requires parseUrl(Elevator) == Some("/posts/2024/elevator/")
    ensures FilenameFromUrl(parseUrl, Elevator, ["en"], "webmentions.json") == "webmentions.json"
  {
    var p := "posts/2024/elevator/";
    assert TrimmedPath(parseUrl, Elevator) == Some(p);
    assert !("en" <= p) by { assert p[0] != 'e'; }
  }

  /** The matching locale goes between the stem and the extension. */
  lemma FilenameFromUrlLocaleCase(parseUrl: UrlParser)
    requires parseUrl(Covid) == Some("/en/posts/2021/covid/")
    ensures FilenameFromUrl(parseUrl, Covid, ["en", "ru"], "webmentions.json") == "webmentions.en.json"
  {
    var prefixes := ["en", "ru"];
    assert prefixes[0] == "en";
    assert "/en/posts/2021/covid/" == "/" + ("en" + "/posts/2021/covid/");
    WebmentionsJson();
    FilenameFromUrlUnderPrefix(parseUrl, Covid, prefixes, 0, "/posts/2021/covid/", "webmentions", "json");
  }

  /** The default file name splits into a plain stem and extension. */
  lemma WebmentionsJson()
    ensures "webmentions.json" == "webmentions" + "." + "json"
    ensures "webmentions.en.json" == "webmentions" + "." + "en" + "." + "json"
    ensures forall j | 0 <= j < |"webmentions"| :: "webmentions"[j] != '/'
    ensures forall j | 0 <= j < |"json"| :: "json"[j] != '.' && "json"[j] != '/'
  {
  }

  /** Matching is by characters, not path segments: `en` also eats the
      start of `english/`. */
  lemma TrimOneIsNotSegmentAware()
    ensures TrimOne("english/notes/", ["en"]) == "glish/notes/"
  {
    assert "english/notes/" == "en" + "glish/notes/";
    TrimOneFirstMatch("english/notes/", ["en"], 0);
  }

  /** An empty prefix begins every path, so it tags every file name... */
  lemma EmptyPrefixAlwaysTags(parseUrl: UrlParser, t: string, rest: seq<string>, filename: string)
    requires parseUrl(t).Some?
    ensures FilenameFromUrl(parseUrl, t, [""] + rest, filename) == LocaleFilename(filename, "")
  {
    assert FirstPrefix(TrimmedPath(parseUrl, t).value, [""] + rest) == Some("");
  }

  /** ...while in `trimOne` it strips nothing and is skipped. */
  lemma EmptyPrefixNeverTrims(s: string, rest: seq<string>)
    ensures TrimOne(s, [""] + rest) == TrimOne(s, rest)
  {
    var none: seq<string> := [];
    assert none + [""] + rest == [""] + rest && none + rest == rest;
    TrimOneSkipsEmpty(s, none, rest);
  }
}
