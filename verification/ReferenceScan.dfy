/** The scan for mentions of selected ids in retained rows. It looks at the UTF-8 bytes around each dash;
    it finds exactly the strings that contain a selected id as a substring of characters. */
module ReferenceScan {
  import opened Text
  import opened PurgeModel

  /** The byte offset of character i. */
  function Offset(s: string, i: nat): nat
    requires i <= |s|
  {
    |Utf8(s[..i])|
  }

  const DASH: int := 0x2D

  /** Canonical UUID text (section 4 of RFC 9562): 36 ASCII characters with dashes after the 8th, 12th, 16th and 20th
      digit. */
  predicate UuidText(id: string) {
    && |id| == 36 && Ascii(id)
    && id[8] == '-' && id[13] == '-' && id[18] == '-' && id[23] == '-'
  }

  // ----- the scan -----

  /** The 36 bytes around the dash at byte `dash` are the text of a selected id. */
  predicate WindowHit(bytes: seq<int>, dash: nat, ids: set<string>) {
    && 8 <= dash && dash + 28 <= |bytes|
    && var w := bytes[dash - 8..dash + 28];
       && w[13] == DASH && w[18] == DASH && w[23] == DASH
       && exists id :: id in ids && Utf8(id) == w
  }

  predicate StringHit(s: string, ids: set<string>) {
    exists i :: 0 <= i < |s| && s[i] == '-' && WindowHit(Utf8(s), Offset(s, i), ids)
  }

  predicate ContainsId(value: Json, ids: set<string>) {
    match value
    case Str(s) => StringHit(s, ids)
    case Arr(items) => exists v :: v in items && ContainsId(v, ids)
    case Obj(fields) => exists f :: f in fields && ContainsId(f.1, ids)
    case _ => false
  }

  // ----- the naive test -----

  predicate Mentions(value: Json, ids: set<string>) {
    match value
    case Str(s) => exists id :: id in ids && Substring(s, id)
    case Arr(items) => exists v :: v in items && Mentions(v, ids)
    case Obj(fields) => exists f :: f in fields && Mentions(f.1, ids)
    case _ => false
  }

  // ----- ASCII text in an encoding -----

  /** Bytes that spell ASCII text at the start of an encoding come from those characters. */
  lemma {:induction false} AsciiPrefix(s: string, id: string)
    requires Ascii(id) && |Utf8(id)| <= |Utf8(s)| && Utf8(s)[..|Utf8(id)|] == Utf8(id)
    ensures |id| <= |s| && s[..|id|] == id
  {
    if id == [] {
    } else {
      AsciiBytes(id);
      assert Utf8(s)[0] == Utf8(id)[0] == id[0] as int;
      var first := Encoded(s[0]);
      assert Utf8(s)[0] == first[0] && first[0] in first;
      assert s[0] == id[0];
      assert Utf8(id) == [id[0] as int] + Utf8(id[1..]);
      assert Utf8(s) == [s[0] as int] + Utf8(s[1..]);
      assert Utf8(s[1..])[..|Utf8(id[1..])|] == Utf8(s)[1..|Utf8(id)|] == Utf8(id)[1..] == Utf8(id[1..]);
      AsciiPrefix(s[1..], id[1..]);
      assert s[..|id|] == [s[0]] + s[1..][..|id| - 1];
    }
  }

  /** ASCII text found at any byte position is a substring of characters: no multi-byte character is cut. */
  lemma {:induction false} AsciiAnywhere(s: string, id: string, p: nat)
    requires Ascii(id) && id != [] && p + |Utf8(id)| <= |Utf8(s)| && Utf8(s)[p..p + |Utf8(id)|] == Utf8(id)
    ensures Substring(s, id)
    decreases |s|
  {
    if p == 0 {
      AsciiPrefix(s, id);
      assert OccursAt(s, id, 0);
    } else {
      FirstSkipped(s, id, p);
      hide Encoded, Ascii, Utf8, Substring;
      AsciiAnywhere(s[1..], id, p - |Encoded(s[0])|);
      SubstringOfTail(s, id);
    }
  }

  /** Past its first byte, the encoding of one character holds no ASCII byte. */
  lemma FirstSkipped(s: string, id: string, p: nat)
    requires Ascii(id) && id != [] && 0 < p && p + |Utf8(id)| <= |Utf8(s)| && Utf8(s)[p..p + |Utf8(id)|] == Utf8(id)
    ensures s != [] && |Encoded(s[0])| <= p && p - |Encoded(s[0])| + |Utf8(id)| <= |Utf8(s[1..])|
    ensures Utf8(s[1..])[p - |Encoded(s[0])|..p - |Encoded(s[0])| + |Utf8(id)|] == Utf8(id)
  {
    hide *;
    SomeText(s);
    AsciiBytes(id);
    FirstAscii(id);
    var first := Encoded(s[0]);
    forall k | 0 < k < |first| ensures first[k] >= 0x80 { assert first[k] in first; }
    Utf8Head(s);
    SkipFirst(first, Utf8(s[1..]), Utf8(id), p);
  }

  lemma SomeText(s: string)
    requires Utf8(s) != []
    ensures s != ""
  {
  }

  lemma FirstAscii(id: string)
    requires Ascii(id) && id != ""
    ensures (id[0] as int) < 0x80
  {
  }

  lemma SkipFirst(first: seq<int>, rest: seq<int>, w: seq<int>, p: nat)
    requires w != [] && w[0] < 0x80 && forall k :: 0 < k < |first| ==> first[k] >= 0x80
    requires 0 < p && p + |w| <= |first + rest| && (first + rest)[p..p + |w|] == w
    ensures |first| <= p && p - |first| + |w| <= |rest| && rest[p - |first|..p - |first| + |w|] == w
  {
  }

  lemma SubstringOfTail(s: string, id: string)
    requires s != "" && Substring(s[1..], id)
    ensures Substring(s, id)
  {
    var i :| 0 <= i <= |s[1..]| && OccursAt(s[1..], id, i);
    assert s[i + 1..i + 1 + |id|] == s[1..][i..i + |id|];
    assert OccursAt(s, id, i + 1);
  }

  /** A selected id in the text shows up as a window around its first dash. */
  lemma SubstringIsHit(s: string, id: string, ids: set<string>)
    requires id in ids && UuidText(id) && Substring(s, id)
    ensures StringHit(s, ids)
  {
    hide Encoded, Utf8, StringHit;
    var i :| 0 <= i <= |s| && OccursAt(s, id, i);
    var before, after := s[..i], s[i + |id|..];
    assert s == before + (id + after);
    Utf8Concat(before, id + after);
    Utf8Concat(id, after);
    AsciiBytes(id);
    assert s[..i + 8] == before + id[..8];
    Utf8Concat(before, id[..8]);
    AsciiBytes(id[..8]);
    var dash := Offset(s, i + 8);
    assert dash == |Utf8(before)| + 8;
    assert Utf8(s)[dash - 8..dash + 28] == Utf8(id);
    assert s[i + 8] == id[8];
    assert WindowHit(Utf8(s), dash, ids);
    HitAt(s, i + 8, ids);
  }

  lemma HitAt(s: string, i: nat, ids: set<string>)
    requires i < |s| && s[i] == '-' && WindowHit(Utf8(s), Offset(s, i), ids)
    ensures StringHit(s, ids)
  {
  }

  /** A window that is a selected id is that id in the text. */
  lemma HitIsSubstring(s: string, ids: set<string>)
    requires StringHit(s, ids) && forall id :: id in ids ==> UuidText(id)
    ensures exists id :: id in ids && Substring(s, id)
  {
    var i :| 0 <= i < |s| && s[i] == '-' && WindowHit(Utf8(s), Offset(s, i), ids);
    var dash := Offset(s, i);
    var id :| id in ids && Utf8(id) == Utf8(s)[dash - 8..dash + 28];
    AsciiBytes(id);
    AsciiAnywhere(s, id, dash - 8);
  }

  /** The scan misses nothing and invents nothing, in any JSON value. */
  lemma {:induction false} ScanIsSubstringTest(value: Json, ids: set<string>)
    requires forall id :: id in ids ==> UuidText(id)
    ensures ContainsId(value, ids) <==> Mentions(value, ids)
  {
    match value
    case Str(s) =>
      if StringHit(s, ids) { HitIsSubstring(s, ids); }
      forall id | id in ids && Substring(s, id) ensures StringHit(s, ids) { SubstringIsHit(s, id, ids); }
    case Arr(items) =>
      forall v | v in items ensures ContainsId(v, ids) <==> Mentions(v, ids) { ScanIsSubstringTest(v, ids); }
    case Obj(fields) =>
      forall f | f in fields ensures ContainsId(f.1, ids) <==> Mentions(f.1, ids) { ScanIsSubstringTest(f.1, ids); }
    case _ =>
  }
}
