/** Searching strings, as `std::string::find` does. */
module Strings {
  import opened Wrappers

  /** The first position of a character. */
  function Find(s: string, c: char): (r: Option<nat>)
    ensures r.Some? ==> r.value < |s|
  {
    if s == "" then None
    else if s[0] == c then Some(0)
    else match Find(s[1..], c) case None => None case Some(i) => Some(i + 1)
  }

  /** It holds the character and nothing before it does; without a position there is no such character. */
  lemma {:induction false} FindIsFirst(s: string, c: char)
    ensures match Find(s, c)
      case Some(i) => s[i] == c && c !in s[..i]
      case None => c !in s
  {
    if s != "" && s[0] != c {
      FindIsFirst(s[1..], c);
      var r := Find(s, c);
      if r.Some? { assert s[..r.value] == [s[0]] + s[1..][..r.value - 1]; }
    }
  }

  lemma {:induction false} FindAt(a: string, c: char, b: string)
    requires c !in a
    ensures Find(a + [c] + b, c) == Some(|a|)
  {
    if a != "" {
      assert (a + [c] + b)[1..] == a[1..] + [c] + b;
      FindAt(a[1..], c, b);
    }
  }

  /** The first position of a character at or after `from`. */
  function FindFrom(s: string, c: char, from: nat): (r: Option<nat>)
    requires from <= |s|
    ensures r.Some? ==> from <= r.value < |s|
  {
    match Find(s[from..], c)
    case None => None
    case Some(i) => Some(from + i)
  }

  /** The first position of a substring. */
  function FindString(s: string, pattern: string): (r: Option<nat>)
    requires pattern != ""
    ensures r.Some? ==> r.value + |pattern| <= |s|
  {
    if |s| < |pattern| then None
    else if s[..|pattern|] == pattern then Some(0)
    else match FindString(s[1..], pattern) case None => None case Some(i) => Some(i + 1)
  }

  predicate OccursAt(s: string, pattern: string, i: nat) {
    i + |pattern| <= |s| && s[i..i + |pattern|] == pattern
  }

  lemma TailSlice(s: string, i: nat, j: nat)
    requires 0 < i <= j <= |s|
    ensures s[1..][i - 1..j - 1] == s[i..j]
  {
  }

  lemma {:induction false} FindStringIsFirst(s: string, pattern: string)
    requires pattern != ""
    ensures match FindString(s, pattern)
      case Some(i) => OccursAt(s, pattern, i) && forall j: nat :: j < i ==> !OccursAt(s, pattern, j)
      case None => forall j: nat :: !OccursAt(s, pattern, j)
  {
    if |s| >= |pattern| && s[..|pattern|] != pattern {
      FindStringIsFirst(s[1..], pattern);
      forall j: nat ensures OccursAt(s, pattern, j) <==> j > 0 && OccursAt(s[1..], pattern, j - 1) {
        if j > 0 && j + |pattern| <= |s| { TailSlice(s, j, j + |pattern|); }
      }
    }
  }
}
