/** The string operations the command router relies on: String.Split with a
    string separator, and the join that undoes it. */
module Strings {
  import opened Wrappers

  /** `sep` occurs in `s` starting at position `i`. */
  predicate OccursAt(s: string, sep: string, i: nat)
  {
    i + |sep| <= |s| && s[i..i + |sep|] == sep
  }

  /** The first position at or after `from` where `sep` occurs in `s`. */
  function IndexOf(s: string, sep: string, from: nat): (r: Option<nat>)
    requires |sep| > 0
    decreases |s| - from
    ensures r.Some? ==> from <= r.value && OccursAt(s, sep, r.value)
    ensures r.Some? ==> forall j: nat :: from <= j < r.value ==> !OccursAt(s, sep, j)
    ensures r.None? ==> forall j: nat :: from <= j ==> !OccursAt(s, sep, j)
  {
    if |s| < from + |sep| then None
    else if OccursAt(s, sep, from) then Some(from)
    else IndexOf(s, sep, from + 1)
  }

  /** `s.Split(new[] { sep }, StringSplitOptions.None)`: the pieces between
      the occurrences of `sep`, found left to right, empty pieces kept. */
  function Split(s: string, sep: string): (parts: seq<string>)
    requires |sep| > 0
    decreases |s|
    ensures |parts| >= 1
  {
    match IndexOf(s, sep, 0)
    case None => [s]
    case Some(i) => [s[..i]] + Split(s[i + |sep|..], sep)
  }

  /** `String.Join(sep, parts)`. */
  function Join(parts: seq<string>, sep: string): string
  {
    if |parts| == 0 then ""
    else if |parts| == 1 then parts[0]
    else parts[0] + sep + Join(parts[1..], sep)
  }

  /** Concatenation regrouped. */
  lemma AppendAssoc(a: string, b: string, c: string)
    ensures (a + b) + c == a + (b + c)
  {
  }

  /** Joining a list that starts with `p`. */
  lemma JoinCons(p: string, ps: seq<string>, sep: string)
    ensures Join([p] + ps, sep) == if ps == [] then p else p + sep + Join(ps, sep)
  {
    if ps != [] {
      assert ([p] + ps)[1..] == ps;
    }
  }

  /** A string is its three consecutive slices put together. */
  lemma Recompose(s: string, i: nat, j: nat)
    requires i <= j <= |s|
    ensures s[..i] + s[i..j] + s[j..] == s
  {
    assert s[..i] + s[i..j] == s[..j];
  }

  /** Joining the pieces with the separator gives back the string. */
  lemma {:induction false} SplitJoin(s: string, sep: string)
    requires |sep| > 0
    decreases |s|
    ensures Join(Split(s, sep), sep) == s
  {
    match IndexOf(s, sep, 0)
    case None =>
    case Some(i) =>
      var rest := s[i + |sep|..];
      SplitJoin(rest, sep);
      JoinCons(s[..i], Split(rest, sep), sep);
      Recompose(s, i, i + |sep|);
  }

  /** Split cuts at the first occurrence and goes on after it. */
  lemma SplitAtFirst(s: string, sep: string)
    requires |sep| > 0 && IndexOf(s, sep, 0).Some?
    ensures var i := IndexOf(s, sep, 0).value;
      Split(s, sep) == [s[..i]] + Split(s[i + |sep|..], sep)
  {
  }

  /** A piece of a string holds no occurrence the string itself lacks. */
  lemma OccursInPrefix(s: string, sep: string, i: nat, j: nat)
    requires i <= |s| && OccursAt(s[..i], sep, j)
    ensures OccursAt(s, sep, j)
  {
    assert s[..i][j..j + |sep|] == s[j..j + |sep|];
  }

  /** No piece that Split returns contains the separator. */
  lemma {:induction false} SplitPiecesAvoidSeparator(s: string, sep: string)
    requires |sep| > 0
    decreases |s|
    ensures forall k: nat, j: nat :: k < |Split(s, sep)| ==> !OccursAt(Split(s, sep)[k], sep, j)
  {
    match IndexOf(s, sep, 0)
    case None =>
      assert Split(s, sep) == [s];
    case Some(i) =>
      var rest := s[i + |sep|..];
      var parts := Split(s, sep);
      SplitAtFirst(s, sep);
      SplitPiecesAvoidSeparator(rest, sep);
      forall k: nat, j: nat | k < |parts|
        ensures !OccursAt(parts[k], sep, j)
      {
        if k == 0 {
          if OccursAt(s[..i], sep, j) {
            OccursInPrefix(s, sep, i, j);
          }
        } else {
          assert parts[k] == Split(rest, sep)[k - 1];
        }
      }
  }

  /** The first two pieces: the text before the first occurrence of `sep`,
      and the text between the first and the second (or the end); a string
      without `sep` splits into itself alone. */
  lemma SplitFirstPieces(s: string, sep: string)
    requires |sep| > 0
    ensures IndexOf(s, sep, 0).None? <==> |Split(s, sep)| == 1
    ensures IndexOf(s, sep, 0).None? ==> Split(s, sep) == [s]
    ensures IndexOf(s, sep, 0).Some? ==>
      var i := IndexOf(s, sep, 0).value;
      var rest := s[i + |sep|..];
      && Split(s, sep)[0] == s[..i]
      && Split(s, sep)[1] == match IndexOf(rest, sep, 0)
                             case None => rest
                             case Some(j) => rest[..j]
  {
    match IndexOf(s, sep, 0)
    case None =>
    case Some(i) =>
      SplitAtFirst(s, sep);
  }

  /** A name with no colon, then "://", then a remainder without "://",
      splits into exactly the name and the remainder. */
  lemma {:induction false} SplitAtSchemeSeparator(name: string, remainder: string)
    requires ':' !in name
    requires IndexOf(remainder, "://", 0).None?
    ensures Split(name + "://" + remainder, "://") == [name, remainder]
  {
    var s := name + "://" + remainder;
    var sep := "://";
    assert OccursAt(s, sep, |name|) by {
      assert s[|name|..|name| + 3] == sep;
    }
    forall j: nat | j < |name|
      ensures !OccursAt(s, sep, j)
    {
      assert s[j] == name[j];
    }
    var first := IndexOf(s, sep, 0);
    assert first == Some(|name|);
    assert s[|name| + 3..] == remainder;
    assert Split(s, sep) == [s[..|name|]] + Split(remainder, sep);
    assert s[..|name|] == name;
  }
}
