/** Text as sequences of characters: UTF-8 and substrings. */
module Text {

  // ----- UTF-8 -----

  /** The encoding of one character (section 3 of RFC 3629). */
  function Encoded(c: char): (bytes: seq<int>)
    ensures 1 <= |bytes| <= 4
    ensures (c as int) < 0x80 ==> bytes == [c as int]
    ensures (c as int) >= 0x80 ==> forall b :: b in bytes ==> b >= 0x80
  {
    var n := c as int;
    if n < 0x80 then [n]
    else if n < 0x800 then [0xC0 + n / 0x40, 0x80 + n % 0x40]
    else if n < 0x10000 then [0xE0 + n / 0x1000, 0x80 + n / 0x40 % 0x40, 0x80 + n % 0x40]
    else [0xF0 + n / 0x40000, 0x80 + n / 0x1000 % 0x40, 0x80 + n / 0x40 % 0x40, 0x80 + n % 0x40]
  }

  function Utf8(s: string): seq<int> {
    if s == [] then [] else Encoded(s[0]) + Utf8(s[1..])
  }

  /** The length in bytes. */
  function Bytes(s: string): nat {
    |Utf8(s)|
  }

  predicate Ascii(s: string) {
    forall i :: 0 <= i < |s| ==> (s[i] as int) < 0x80
  }

  lemma Utf8Head(s: string)
    requires s != []
    ensures Utf8(s) == Encoded(s[0]) + Utf8(s[1..])
  {
  }

  lemma {:induction false} Utf8Concat(s: string, t: string)
    ensures Utf8(s + t) == Utf8(s) + Utf8(t)
  {
    if s == [] {
      assert s + t == t;
    } else {
      hide Encoded, Utf8;
      assert (s + t)[1..] == s[1..] + t && (s + t)[0] == s[0];
      Utf8Concat(s[1..], t);
      Utf8Head(s);
      Utf8Head(s + t);
      assert Encoded(s[0]) + (Utf8(s[1..]) + Utf8(t)) == Encoded(s[0]) + Utf8(s[1..]) + Utf8(t);
    }
  }

  lemma {:induction false} AsciiBytes(s: string)
    requires Ascii(s)
    ensures |Utf8(s)| == |s| && forall i :: 0 <= i < |s| ==> Utf8(s)[i] == s[i] as int
  {
    if s == [] {
    } else {
      AsciiBytes(s[1..]);
      assert Utf8(s) == [s[0] as int] + Utf8(s[1..]);
      forall i | 0 <= i < |s| ensures Utf8(s)[i] == s[i] as int {
        if i > 0 { assert Utf8(s)[i] == Utf8(s[1..])[i - 1]; }
      }
    }
  }

  lemma {:induction false} BytesBounds(s: string)
    ensures |s| <= Bytes(s) <= 4 * |s|
  {
    if s == "" {
      assert Utf8(s) == [];
    } else {
      Utf8Head(s);
      BytesBounds(s[1..]);
    }
  }

  // ----- substrings -----

  predicate OccursAt(s: string, id: string, i: nat) {
    i + |id| <= |s| && s[i..i + |id|] == id
  }

  predicate Substring(s: string, id: string) {
    exists i :: 0 <= i <= |s| && OccursAt(s, id, i)
  }

  lemma SubstringAt(s: string, before: string, t: string, after: string)
    requires s == before + t + after
    ensures Substring(s, t)
  {
    assert OccursAt(s, t, |before|);
  }

  /** A substring of a substring. */
  lemma SubstringTrans(s: string, t: string, u: string)
    requires Substring(s, t) && Substring(t, u)
    ensures Substring(s, u)
  {
    var i :| 0 <= i <= |s| && OccursAt(s, t, i);
    var j :| 0 <= j <= |t| && OccursAt(t, u, j);
    var at := s[i..i + |t|];
    assert at == t && at[j..j + |u|] == u;
    forall k | 0 <= k < |u| ensures s[i + j + k] == u[k] { assert s[i + (j + k)] == at[j + k]; }
    assert OccursAt(s, u, i + j);
  }

  // ----- white space -----

  predicate Trimmed(white: char -> bool, s: string) {
    s == "" || (!white(s[0]) && !white(s[|s| - 1]))
  }

  function TrimStart(white: char -> bool, s: string): (t: string)
    ensures t == "" || !white(t[0])
  {
    if s == "" || !white(s[0]) then s else TrimStart(white, s[1..])
  }

  function TrimEnd(white: char -> bool, s: string): (t: string)
    ensures t <= s && (t == "" || !white(t[|t| - 1]))
  {
    if s == "" || !white(s[|s| - 1]) then s else TrimEnd(white, s[..|s| - 1])
  }

  function Trim(white: char -> bool, s: string): (t: string)
    ensures Trimmed(white, t)
    ensures Trimmed(white, s) ==> t == s
  {
    TrimEnd(white, TrimStart(white, s))
  }

  lemma {:induction false} StartCut(white: char -> bool, s: string) returns (a: nat)
    ensures a <= |s| && TrimStart(white, s) == s[a..] && forall k :: 0 <= k < a ==> white(s[k])
  {
    if s == "" || !white(s[0]) {
      a := 0;
    } else {
      a := StartCut(white, s[1..]);
      assert s[1..][a..] == s[a + 1..] && forall k :: 0 < k <= a ==> s[k] == s[1..][k - 1];
      a := a + 1;
    }
  }

  lemma {:induction false} EndCut(white: char -> bool, s: string) returns (b: nat)
    ensures b <= |s| && TrimEnd(white, s) == s[..b] && forall k :: b <= k < |s| ==> white(s[k])
  {
    if s == "" || !white(s[|s| - 1]) {
      b := |s|;
    } else {
      b := EndCut(white, s[..|s| - 1]);
      assert s[..|s| - 1][..b] == s[..b];
    }
  }

  /** Trimming takes away white space at both ends and nothing else. */
  lemma TrimCuts(white: char -> bool, s: string) returns (a: nat, b: nat)
    ensures a <= b <= |s| && Trim(white, s) == s[a..b]
    ensures forall k :: 0 <= k < a || b <= k < |s| ==> white(s[k])
  {
    a := StartCut(white, s);
    b := EndCut(white, s[a..]);
    assert s[a..][..b] == s[a..a + b] && forall k :: a + b <= k < |s| ==> s[k] == s[a..][k - a];
    b := a + b;
  }

  /** Where the word that starts at i ends. */
  function WordEnd(white: char -> bool, s: string, i: nat): (j: nat)
    requires i <= |s|
    ensures i <= j <= |s| && (forall k :: i <= k < j ==> !white(s[k])) && (j < |s| ==> white(s[j]))
    decreases |s| - i
  {
    if i == |s| || white(s[i]) then i else WordEnd(white, s, i + 1)
  }

  /** The words of s from position i on: split at white space. */
  function WordsFrom(white: char -> bool, s: string, i: nat): seq<string>
    requires i <= |s|
    decreases |s| - i
  {
    if i == |s| then []
    else if white(s[i]) then WordsFrom(white, s, i + 1)
    else
      var j := WordEnd(white, s, i);
      assert j > i;
      [s[i..j]] + WordsFrom(white, s, j)
  }

  /** A word is a longest run of characters that are not white space. */
  predicate IsWord(white: char -> bool, s: string, i: nat, j: nat) {
    && i < j <= |s| && (forall k :: i <= k < j ==> !white(s[k]))
    && (i > 0 ==> white(s[i - 1])) && (j < |s| ==> white(s[j]))
  }

  lemma {:induction false} WordsAreRuns(white: char -> bool, s: string, i: nat, w: string)
    requires i <= |s| && (0 < i < |s| && !white(s[i]) ==> white(s[i - 1]))
    ensures w in WordsFrom(white, s, i) <==> exists a: nat, b: nat :: i <= a && IsWord(white, s, a, b) && s[a..b] == w
    decreases |s| - i
  {
    if i == |s| {
      assert WordsFrom(white, s, i) == [];
    } else if white(s[i]) {
      WordsAreRuns(white, s, i + 1, w);
      assert forall a: nat, b: nat :: i <= a && IsWord(white, s, a, b) ==> i + 1 <= a;
    } else {
      var j := WordEnd(white, s, i);
      assert IsWord(white, s, i, j);
      WordsAreRuns(white, s, j, w);
      forall a: nat, b: nat | i <= a && IsWord(white, s, a, b) ensures (a == i && b == j) || j <= a {
        if a == i { RunEnds(white, s, i, j, b); }
      }
    }
  }

  lemma RunEnds(white: char -> bool, s: string, i: nat, j: nat, b: nat)
    requires IsWord(white, s, i, j) && IsWord(white, s, i, b)
    ensures j == b
  {
  }

  // ----- lower case -----

  /** Lower-casing character by character; one character may become several. */
  function Lower(one: char -> string, s: string): string {
    if s == "" then "" else one(s[0]) + Lower(one, s[1..])
  }

  lemma {:induction false} LowerConcat(one: char -> string, s: string, t: string)
    ensures Lower(one, s + t) == Lower(one, s) + Lower(one, t)
  {
    if s == "" {
      assert s + t == t;
    } else {
      assert (s + t)[1..] == s[1..] + t;
      LowerConcat(one, s[1..], t);
    }
  }

  lemma {:induction false} LowerSame(one: char -> string, s: string)
    requires forall i :: 0 <= i < |s| ==> one(s[i]) == [s[i]]
    ensures Lower(one, s) == s
  {
    if s == "" {
      assert Lower(one, s) == "";
    } else {
      LowerSame(one, s[1..]);
      assert s == [s[0]] + s[1..];
    }
  }

  /** Lower-case text in a text is there in lower case too. */
  lemma LowerSubstring(one: char -> string, s: string, t: string)
    requires Substring(s, t) && forall i :: 0 <= i < |t| ==> one(t[i]) == [t[i]]
    ensures Substring(Lower(one, s), t)
  {
    var i :| 0 <= i <= |s| && OccursAt(s, t, i);
    var before, after := s[..i], s[i + |t|..];
    assert s == before + t + after;
    LowerConcat(one, before + t, after);
    LowerConcat(one, before, t);
    LowerSame(one, t);
    SubstringAt(Lower(one, s), Lower(one, before), t, Lower(one, after));
  }
}
