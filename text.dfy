/** String primitives the scheduler and the task editor rely on: ASCII
    lower-casing, substring search and whitespace trimming. They stand for
    JavaScript's toLowerCase, includes and trim, restricted to ASCII. */
module Text {
  import opened Wrappers

  /** ASCII whitespace: space, tab, line feed, vertical tab, form feed, carriage return. */
  predicate IsSpace(c: char) {
    c == ' ' || c == '\t' || c == '\n' || c == '\r' || c as int == 11 || c as int == 12
  }

  function LowerChar(c: char): char {
    if 'A' <= c <= 'Z' then (c as int + 32) as char else c
  }

  /** toLowerCase over ASCII letters; every other character is kept. */
  function Lower(s: string): (r: string)
    ensures |r| == |s|
    ensures forall i :: 0 <= i < |r| ==> !('A' <= r[i] <= 'Z')
    ensures forall i :: 0 <= i < |s| && 'A' <= s[i] <= 'Z' ==> r[i] as int == s[i] as int + 32
    ensures forall i :: 0 <= i < |s| && !('A' <= s[i] <= 'Z') ==> r[i] == s[i]
  {
    seq(|s|, i requires 0 <= i < |s| => LowerChar(s[i]))
  }

  /** Lower-casing a second time changes nothing. */
  lemma LowerIdempotent(s: string)
    ensures Lower(Lower(s)) == Lower(s)
  {
  }

  /** `sub` occurs in `s` starting at position `i`. */
  predicate OccursAt(s: string, sub: string, i: int) {
    0 <= i && i + |sub| <= |s| && s[i..i + |sub|] == sub
  }

  /** includes: `sub` occurs in `s` at some position. */
  predicate Contains(s: string, sub: string) {
    exists i :: 0 <= i <= |s| - |sub| && OccursAt(s, sub, i)
  }

  /** A word does not occur in a text when its `k`-th character is missing
      from every place that character could land: positions `k` to
      `|s| - |sub| + k`. */
  lemma {:induction false} MissingChar(s: string, sub: string, k: nat)
    requires k < |sub|
    requires |sub| <= |s| ==> sub[k] !in s[k..|s| - |sub| + k + 1]
    ensures !Contains(s, sub)
  {
    forall i | 0 <= i <= |s| - |sub|
      ensures !OccursAt(s, sub, i)
    {
      assert s[i..i + |sub|][k] == s[i + k] == s[k..|s| - |sub| + k + 1][i];
    }
  }

  /** The first position of `c` in `s`: where the leftmost match of the
      brace pattern starts, and where the line-feed split cuts. */
  function FirstIndex(s: string, c: char): (r: Option<nat>)
    ensures r.Some? ==> r.value < |s| && s[r.value] == c
    ensures r.Some? ==> forall k :: 0 <= k < r.value ==> s[k] != c
    ensures r.None? <==> forall k :: 0 <= k < |s| ==> s[k] != c
  {
    if s == [] then None
    else if s[0] == c then Some(0)
    else match FirstIndex(s[1..], c)
      case None => None
      case Some(i) => Some(i + 1)
  }

  /** The last position of `c` in `s`: where the greedy match of the brace
      pattern ends. */
  function LastIndex(s: string, c: char): (r: Option<nat>)
    ensures r.Some? ==> r.value < |s| && s[r.value] == c
    ensures r.Some? ==> forall k :: r.value < k < |s| ==> s[k] != c
    ensures r.None? <==> forall k :: 0 <= k < |s| ==> s[k] != c
  {
    if s == [] then None
    else if s[|s| - 1] == c then Some(|s| - 1)
    else LastIndex(s[..|s| - 1], c)
  }

  /** A trimmed string neither starts nor ends with whitespace. */
  predicate IsTrimmed(s: string) {
    s == [] || (!IsSpace(s[0]) && !IsSpace(s[|s| - 1]))
  }

  /** Drops the leading whitespace: what is dropped is all whitespace, and what
      is left is a suffix of `s` that does not start with whitespace. */
  function TrimStart(s: string): (r: string)
    ensures |r| <= |s| && r == s[|s| - |r|..]
    ensures forall i :: 0 <= i < |s| - |r| ==> IsSpace(s[i])
    ensures r == [] || !IsSpace(r[0])
  {
    if s != [] && IsSpace(s[0]) then TrimStart(s[1..]) else s
  }

  /** Drops the trailing whitespace: what is dropped is all whitespace, and what
      is left is a prefix of `s` that does not end with whitespace. */
  function TrimEnd(s: string): (r: string)
    ensures |r| <= |s| && r == s[..|r|]
    ensures forall i :: |r| <= i < |s| ==> IsSpace(s[i])
    ensures r == [] || !IsSpace(r[|r| - 1])
  {
    if s != [] && IsSpace(s[|s| - 1]) then TrimEnd(s[..|s| - 1]) else s
  }

  /** trim: the result is itself trimmed, and it is empty exactly when `s`
      is all whitespace. */
  function Trim(s: string): (r: string)
    ensures IsTrimmed(r)
    ensures r == [] <==> forall i :: 0 <= i < |s| ==> IsSpace(s[i])
  {
    var t := TrimStart(s);
    var r := TrimEnd(t);
    assert r != [] ==> r[0] == t[0];
    assert r == [] ==> t == [];
    r
  }

  /** The `i`-th character of the trim is the character of `s` that many
      places past the leading whitespace. */
  lemma TrimCharAt(s: string, i: nat)
    requires i < |Trim(s)|
    ensures Trim(s)[i] == s[|s| - |TrimStart(s)| + i]
  {
    var t := TrimStart(s);
    assert Trim(s) == TrimEnd(t);
    assert Trim(s)[i] == t[i];
  }

  /** A character of `s` past the end of the trim is whitespace. */
  lemma TrimTailIsSpace(s: string, i: nat)
    requires |s| - |TrimStart(s)| + |Trim(s)| <= i < |s|
    ensures IsSpace(s[i])
  {
    var t := TrimStart(s);
    assert Trim(s) == TrimEnd(t);
    assert s[i] == t[i - (|s| - |t|)];
  }

  /** What trim keeps is a contiguous piece of `s`, starting where the
      leading whitespace ends. */
  lemma {:induction false} TrimIsMiddle(s: string)
    ensures |s| - |TrimStart(s)| + |Trim(s)| <= |s|
    ensures forall i :: 0 <= i < |Trim(s)| ==> Trim(s)[i] == s[|s| - |TrimStart(s)| + i]
  {
    assert Trim(s) == TrimEnd(TrimStart(s));
    forall i | 0 <= i < |Trim(s)|
      ensures Trim(s)[i] == s[|s| - |TrimStart(s)| + i]
    {
      TrimCharAt(s, i);
    }
  }

  /** Everything trim drops, before and after what it keeps, is whitespace. */
  lemma {:induction false} TrimDropsSpace(s: string)
    ensures forall i :: 0 <= i < |s| - |TrimStart(s)| ==> IsSpace(s[i])
    ensures forall i :: |s| - |TrimStart(s)| + |Trim(s)| <= i < |s| ==> IsSpace(s[i])
  {
    forall i | |s| - |TrimStart(s)| + |Trim(s)| <= i < |s|
      ensures IsSpace(s[i])
    {
      TrimTailIsSpace(s, i);
    }
  }

  /** Trimming leaves an already trimmed string alone. */
  lemma TrimOfTrimmed(s: string)
    requires IsTrimmed(s)
    ensures Trim(s) == s
  {
  }
}
