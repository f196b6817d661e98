/**
 * The record fields the program interprets (main.go): the numeric id that
 * serves as the fetch cursor, and the source and verification time that
 * identify a mention.  Each field is looked up under its classic and its
 * microformats key, in that order.
 *
 * `time.Parse(time.RFC3339, s)` is a parameter: it yields an instant (an
 * integer count of some fixed unit since some fixed origin), or None when
 * `s` is not a `date-time` as section 5.6 of RFC 3339 defines it.
 */
module Records {
  import opened Wrappers
  import opened Json

  type Instant = int
  type TimeParser = string -> Option<Instant>

  const IdKeys: seq<string> := ["id", "wm-id"]
  const SourceKeys: seq<string> := ["source", "wm-source"]
  const VerifiedKeys: seq<string> := ["verified_date", "wm-received"]
  const TargetKeys: seq<string> := ["target", "wm-target"]

  /** The record's numeric id, if it has one: non-objects and ids that are
      not numbers give None. */
  function Id(m: Json): (id: Option<int>)
    ensures id.Some? ==> m.Obj? && Either(m.fields, IdKeys) == Num(id.value)
    ensures m.Obj? && Either(m.fields, IdKeys).Num? ==> id.Some?
  {
    match Either(Fields(m), IdKeys)
    case Num(n) => Some(n)
    case _ => None
  }

  /** `findLatest`: the largest numeric id in `mm`, 0 when there is none
      (or when all are negative). */
  method FindLatest(mm: seq<Json>) returns (latest: int)
    ensures latest >= 0
    ensures forall i | 0 <= i < |mm| && Id(mm[i]).Some? :: Id(mm[i]).value <= latest
    ensures latest == 0 || exists i | 0 <= i < |mm| :: Id(mm[i]) == Some(latest)
  {
    latest := 0;
    for k := 0 to |mm|
      invariant latest >= 0
      invariant forall i | 0 <= i < k && Id(mm[i]).Some? :: Id(mm[i]).value <= latest
      invariant latest == 0 || exists i | 0 <= i < k :: Id(mm[i]) == Some(latest)
    {
      match Id(mm[k])
      case Some(id) =>
        if id > latest {
          latest := id;
        }
      case None =>
    }
  }

  /** The string under one of `keys`, if the value found there is one. */
  function StringField(m: Json, keys: seq<string>): Option<string> {
    match Either(Fields(m), keys)
    case Str(s) => Some(s)
    case _ => None
  }

  /** The record's source URL. */
  function Source(m: Json): Option<string> {
    StringField(m, SourceKeys)
  }

  /** The record's verification instant: a string that parses. */
  function Verified(parseTime: TimeParser, m: Json): Option<Instant> {
    match StringField(m, VerifiedKeys)
    case Some(s) => parseTime(s)
    case None => None
  }

  /** A record that can be recognised again: an object with a source string
      and a verification time that parses. */
  predicate HasIdentity(parseTime: TimeParser, m: Json) {
    m.Obj? && Source(m).Some? && Verified(parseTime, m).Some?
  }

  /** `v.(string)`: the string and true, or "" and false. */
  function AsString(v: Json): (string, bool) {
    if v.Str? then (v.s, true) else ("", false)
  }

  /** `sameMention`, step by step as the code checks it. */
  function SameMention(parseTime: TimeParser, ma: Json, mb: Json): (same: bool)
    ensures same <==> HasIdentity(parseTime, ma) && HasIdentity(parseTime, mb) &&
                      Source(ma) == Source(mb) && Verified(parseTime, ma) == Verified(parseTime, mb)
  {
    if !ma.Obj? || !mb.Obj? then false
    else
      var (oa, oka) := AsString(Either(ma.fields, SourceKeys));
      var (ob, okb) := AsString(Either(mb.fields, SourceKeys));
      if !oka || !okb || oa != ob then false
      else
        var (va, okva) := AsString(Either(ma.fields, VerifiedKeys));
        var (vb, okvb) := AsString(Either(mb.fields, VerifiedKeys));
        match parseTime(va)
        case None => false
        case Some(ta) =>
          match parseTime(vb)
          case None => false
          case Some(tb) => okva && okvb && ta == tb
  }

  /** The identity test does not depend on the order of its arguments. */
  lemma SameMentionSymmetric(parseTime: TimeParser, a: Json, b: Json)
    ensures SameMention(parseTime, a, b) == SameMention(parseTime, b, a)
  {
  }

  /** A record is the same mention as itself exactly when it has an
      identity: one without a source string or a parseable date is not. */
  lemma SameMentionReflexive(parseTime: TimeParser, m: Json)
    ensures SameMention(parseTime, m, m) <==> HasIdentity(parseTime, m)
  {
  }

  /** Among records that have an identity the test is an equivalence. */
  lemma SameMentionTransitive(parseTime: TimeParser, a: Json, b: Json, c: Json)
    requires SameMention(parseTime, a, b) && SameMention(parseTime, b, c)
    ensures SameMention(parseTime, a, c)
  {
  }

  /** Ids play no part in identity: two mentions with different ids but the
      same source and verification instant are taken to be the same. */
  lemma SameMentionIgnoresId(parseTime: TimeParser, src: string, date: string, id1: int, id2: int)
    requires parseTime(date).Some?
    ensures SameMention(parseTime,
              Obj(map["id" := Num(id1), "source" := Str(src), "verified_date" := Str(date)]),
              Obj(map["wm-id" := Num(id2), "wm-source" := Str(src), "wm-received" := Str(date)]))
  {
    var a := map["id" := Num(id1), "source" := Str(src), "verified_date" := Str(date)];
    var b := map["wm-id" := Num(id2), "wm-source" := Str(src), "wm-received" := Str(date)];
    assert Either(a, SourceKeys) == Str(src) && Either(a, VerifiedKeys) == Str(date);
    assert "source" !in b && "verified_date" !in b;
    assert Either(b, SourceKeys) == Str(src) && Either(b, VerifiedKeys) == Str(date);
  }
}
