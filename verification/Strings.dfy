/** The string operations used to build identifiers, with the laws that relate them. */
module Strings {
  import opened Wrappers

  /** `str::split` on a character: never empty. */
  function Split(s: string, c: char): (r: seq<string>)
    ensures |r| > 0
  {
    if s == "" then [""]
    else
      var rest := Split(s[1..], c);
      if s[0] == c then [""] + rest else [[s[0]] + rest[0]] + rest[1..]
  }

  function Join(pieces: seq<string>, c: char): string {
    if pieces == [] then ""
    else if |pieces| == 1 then pieces[0]
    else pieces[0] + [c] + Join(pieces[1..], c)
  }

  /** `str::replace` of one character by another. */
  function Replace(s: string, from: char, to: char): (r: string)
    ensures |r| == |s|
    ensures forall i :: 0 <= i < |s| ==> r[i] == if s[i] == from then to else s[i]
  {
    seq(|s|, i requires 0 <= i < |s| => if s[i] == from then to else s[i])
  }

  /** `str::rfind` of a character. */
  function RFind(s: string, c: char): (r: Option<nat>)
    ensures r.None? <==> c !in s
    ensures r.Some? ==> r.value < |s| && s[r.value] == c && c !in s[r.value + 1..]
  {
    if s == "" then None
    else if s[|s| - 1] == c then Some(|s| - 1)
    else RFind(s[..|s| - 1], c)
  }

  function StartsWith(s: string, prefix: string): bool {
    prefix <= s
  }

  function EndsWith(s: string, suffix: string): bool {
    |suffix| <= |s| && s[|s| - |suffix|..] == suffix
  }

  lemma {:induction false} SplitPiece(s: string, c: char)
    ensures |Split(s, c)| == 1 <==> c !in s
    ensures c !in s ==> Split(s, c) == [s]
    ensures forall i :: 0 <= i < |Split(s, c)| ==> c !in Split(s, c)[i]
  {
    if s != "" {
      SplitPiece(s[1..], c);
      assert [s[0]] + s[1..] == s;
    }
  }

  lemma {:induction false} SplitAppend(x: string, c: char, y: string)
    ensures Split(x + [c] + y, c) == Split(x, c) + Split(y, c)
  {
    if x == "" {
      assert ([c] + y)[1..] == y;
      assert x + [c] + y == [c] + y;
    } else {
      assert (x + [c] + y)[1..] == x[1..] + [c] + y;
      SplitAppend(x[1..], c, y);
    }
  }

  /** Splitting what was joined from pieces without the separator gives the pieces back. */
  lemma {:induction false} SplitJoin(pieces: seq<string>, c: char)
    requires pieces != [] && forall i :: 0 <= i < |pieces| ==> c !in pieces[i]
    ensures Split(Join(pieces, c), c) == pieces
  {
    SplitPiece(pieces[0], c);
    if |pieces| > 1 {
      SplitJoin(pieces[1..], c);
      SplitAppend(pieces[0], c, Join(pieces[1..], c));
    }
  }

  lemma {:induction false} JoinAppend(a: seq<string>, b: seq<string>, c: char)
    requires a != [] && b != []
    ensures Join(a + b, c) == Join(a, c) + [c] + Join(b, c)
  {
    if |a| == 1 {
      assert (a + b)[1..] == b;
    } else {
      assert (a + b)[1..] == a[1..] + b;
      JoinAppend(a[1..], b, c);
    }
  }

  /** A character other than the separator is in the joined text exactly when it is in a piece. */
  lemma {:induction false} JoinMember(pieces: seq<string>, c: char, x: char)
    requires x != c
    ensures x in Join(pieces, c) <==> exists i :: 0 <= i < |pieces| && x in pieces[i]
  {
    if |pieces| > 1 {
      JoinMember(pieces[1..], c, x);
      if i :| 0 <= i < |pieces| && x in pieces[i] {
        assert i > 0 ==> pieces[i] == pieces[1..][i - 1];
      }
      if i :| 0 <= i < |pieces[1..]| && x in pieces[1..][i] {
        assert x in pieces[i + 1];
      }
    }
  }

  lemma ReplaceAppend(x: string, y: string, from: char, to: char)
    ensures Replace(x + y, from, to) == Replace(x, from, to) + Replace(y, from, to)
  {
  }

  lemma ReplaceFixed(s: string, from: char, to: char)
    requires from != to
    ensures Replace(s, from, to) == s <==> from !in s
  {
    if i :| 0 <= i < |s| && s[i] == from {
      assert Replace(s, from, to)[i] == to;
    }
  }

  /** Undoing a join: replacing the separator gives the join with the other separator exactly when no piece has it. */
  lemma {:induction false} ReplaceJoin(pieces: seq<string>, from: char, to: char)
    requires from != to
    ensures |Replace(Join(pieces, from), from, to)| == |Join(pieces, to)|
    ensures Replace(Join(pieces, from), from, to) == Join(pieces, to) <==>
            forall i :: 0 <= i < |pieces| ==> from !in pieces[i]
  {
    if |pieces| == 1 {
      ReplaceFixed(pieces[0], from, to);
    } else if |pieces| > 1 {
      var head, tail := pieces[0], pieces[1..];
      ReplaceJoin(tail, from, to);
      ReplaceFixed(head, from, to);
      ReplaceAppend(head + [from], Join(tail, from), from, to);
      ReplaceAppend(head, [from], from, to);
      assert Replace([from], from, to) == [to];
      SameParts(Replace(head, from, to), Replace(Join(tail, from), from, to), head, Join(tail, to), to);
      assert forall i :: 0 <= i < |tail| ==> tail[i] == pieces[i + 1];
    }
  }

  lemma SameParts(a: string, b: string, x: string, y: string, c: char)
    requires |a| == |x|
    ensures a + [c] + b == x + [c] + y <==> a == x && b == y
  {
    if a + [c] + b == x + [c] + y {
      assert a == (a + [c] + b)[..|a|] && x == (x + [c] + y)[..|a|];
      assert b == (a + [c] + b)[|a| + 1..] && y == (x + [c] + y)[|a| + 1..];
    }
  }

  lemma RFindIs(s: string, c: char, k: nat)
    requires k < |s| && s[k] == c && c !in s[k + 1..]
    ensures RFind(s, c) == Some(k)
  {
    hide RFind;
  }

  lemma {:induction false} RFindRight(x: string, y: string, c: char)
    requires c in y
    ensures RFind(x + y, c) == Some(|x| + RFind(y, c).value)
  {
    var m := |y| - 1;
    if y[m] != c {
      assert (x + y)[..|x + y| - 1] == x + y[..m];
      RFindRight(x, y[..m], c);
    }
  }

  lemma RFindAppend(x: string, c: char, y: string)
    ensures RFind(x + [c] + y, c) == Some(if c in y then |x| + 1 + RFind(y, c).value else |x|)
  {
    hide RFind;
    if c in y {
      RFindRight(x + [c], y, c);
    } else {
      RFindLast(x, c, y);
    }
  }

  lemma RFindLast(x: string, c: char, y: string)
    requires c !in y
    ensures RFind(x + [c] + y, c) == Some(|x|)
  {
    hide RFind;
    var s := x + [c] + y;
    assert s[|x|] == c;
    assert s[|x| + 1..] == y;
    RFindIs(s, c, |x|);
  }

  /** The text before the last occurrence of a character, or all of it. */
  function BeforeLast(s: string, c: char): string {
    match RFind(s, c)
    case Some(k) => s[..k]
    case None => s
  }

  lemma BeforeLastAppend(x: string, c: char, y: string)
    ensures BeforeLast(x + [c] + y, c) == if c in y then x + [c] + BeforeLast(y, c) else x
  {
    RFindAppend(x, c, y);
    hide RFind;
    var s := x + [c] + y;
    if c in y {
      var k := RFind(y, c).value;
      assert s[..|x| + 1 + k] == x + [c] + y[..k];
    } else {
      assert s[..|x|] == x;
    }
  }

  /** The text before the last occurrence is shorter than a prefix that has the only occurrences. */
  lemma BeforeLastShorter(x: string, y: string, c: char)
    requires c in x && c !in y
    ensures |BeforeLast(x + y, c)| < |x|
  {
    hide RFind;
    var s := x + y;
    var i :| 0 <= i < |x| && x[i] == c;
    assert s[i] == c;
  }

  lemma BeforeLastRight(x: string, y: string, c: char)
    requires c in y
    ensures BeforeLast(x + y, c) == x + BeforeLast(y, c)
  {
    RFindRight(x, y, c);
    hide RFind;
    var k := RFind(y, c).value;
    assert (x + y)[..|x| + k] == x + y[..k];
  }
}
