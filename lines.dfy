/** `String.prototype.split` and `Array.prototype.join` on the line ending,
    which is fixed to "\n". */
module Lines {

  const EOL: char := '\n'

  /** `s.split("\n")`: never empty; the empty string splits into `[""]`. */
  function Split(s: string): (r: seq<string>)
    ensures |r| >= 1
    ensures forall i :: 0 <= i < |r| ==> EOL !in r[i]
    decreases |s|
  {
    if |s| == 0 then [""]
    else
      var t := Split(s[1..]);
      if s[0] == EOL then [""] + t else [[s[0]] + t[0]] + t[1..]
  }

  /** `ls.join("\n")`; the empty list joins into "". */
  function Join(ls: seq<string>): string
    decreases |ls|
  {
    if |ls| == 0 then ""
    else if |ls| == 1 then ls[0]
    else ls[0] + [EOL] + Join(ls[1..])
  }

  /** The lines glued together without separators, as `data += line` does. */
  function Concat(ls: seq<string>): string
    decreases |ls|
  {
    if |ls| == 0 then "" else ls[0] + Concat(ls[1..])
  }

  predicate NoEOL(ls: seq<string>) {
    forall i :: 0 <= i < |ls| ==> EOL !in ls[i]
  }

  lemma {:induction false} JoinCons(x: string, ls: seq<string>)
    requires |ls| >= 1
    ensures Join([x] + ls) == x + [EOL] + Join(ls)
  {
    assert ([x] + ls)[1..] == ls;
  }

  /** Joining the pieces of a split gives the text back. */
  lemma {:induction false} JoinSplit(s: string)
    ensures Join(Split(s)) == s
    decreases |s|
  {
    if |s| > 0 {
      var t := Split(s[1..]);
      JoinSplit(s[1..]);
      if s[0] == EOL {
        JoinCons("", t);
        assert s == [EOL] + s[1..];
      } else {
        var r := [[s[0]] + t[0]] + t[1..];
        if |t| == 1 {
          assert s == [s[0]] + s[1..];
        } else {
          assert r[1..] == t[1..];
          assert Join(t) == t[0] + [EOL] + Join(t[1..]);
          assert s == [s[0]] + s[1..];
        }
      }
    }
  }

  /** Splitting at a line ending splits both sides independently. */
  lemma {:induction false} SplitAppend(a: string, b: string)
    ensures Split(a + [EOL] + b) == Split(a) + Split(b)
    decreases |a|
  {
    if |a| == 0 {
      assert a + [EOL] + b == [EOL] + b;
      assert ([EOL] + b)[1..] == b;
    } else {
      var s := a + [EOL] + b;
      assert s[0] == a[0];
      assert s[1..] == a[1..] + [EOL] + b;
      SplitAppend(a[1..], b);
    }
  }

  /** A text without a line ending is a single line. */
  lemma {:induction false} SplitSingle(s: string)
    requires EOL !in s
    ensures Split(s) == [s]
    decreases |s|
  {
    if |s| > 0 {
      assert EOL !in s[1..] by {
        forall i | 0 <= i < |s[1..]| ensures s[1..][i] != EOL { assert s[1..][i] == s[i + 1]; }
      }
      SplitSingle(s[1..]);
      assert s == [s[0]] + s[1..];
    }
  }

  /** Splitting lines that were joined gives them back. */
  lemma {:induction false} SplitJoin(ls: seq<string>)
    requires |ls| >= 1 && NoEOL(ls)
    ensures Split(Join(ls)) == ls
    decreases |ls|
  {
    if |ls| == 1 {
      SplitSingle(ls[0]);
    } else {
      SplitSingle(ls[0]);
      SplitJoin(ls[1..]);
      SplitAppend(ls[0], Join(ls[1..]));
      assert ls == [ls[0]] + ls[1..];
    }
  }
}
