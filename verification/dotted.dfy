/** Dotted key paths: Python's `key.split('.')` and `'.'.join(parts)`, and
    the facts that make the two inverse to each other. */
module Dotted {

  /** `s.split('.')`: the pieces between dots, in order. There is always at
      least one piece, and no piece contains a dot. */
  function Split(s: string): (parts: seq<string>)
    ensures |parts| >= 1
    ensures forall i :: 0 <= i < |parts| ==> '.' !in parts[i]
  {
    if |s| == 0 then [""]
    else
      var rest := Split(s[1..]);
      if s[0] == '.' then [""] + rest
      else [[s[0]] + rest[0]] + rest[1..]
  }

  /** `'.'.join(parts)` for a non-empty list of pieces: the first piece,
      followed by a dot exactly when more pieces follow. */
  function Join(parts: seq<string>): (s: string)
    requires |parts| >= 1
    ensures |s| >= |parts[0]| && s[..|parts[0]|] == parts[0]
    ensures |parts| == 1 <==> |s| == |parts[0]|
    ensures |parts| > 1 ==> s[|parts[0]|] == '.'
  {
    if |parts| == 1 then parts[0] else parts[0] + "." + Join(parts[1..])
  }

  /** A dot-free string splits into itself alone. */
  lemma {:induction false} SplitDotFree(s: string)
    requires '.' !in s
    ensures Split(s) == [s]
  {
    if |s| != 0 {
      assert '.' !in s[1..] by {
        forall i | 0 <= i < |s[1..]| ensures s[1..][i] != '.' {
          assert s[1..][i] == s[i + 1];
        }
      }
      SplitDotFree(s[1..]);
      assert [s[0]] + s[1..] == s;
    }
  }

  /** Splitting `p + "." + t` for a dot-free `p` peels off `p` as the first piece. */
  lemma {:induction false} SplitAtFirstDot(p: string, t: string)
    requires '.' !in p
    ensures Split(p + "." + t) == [p] + Split(t)
  {
    if |p| == 0 {
      assert p + "." + t == "." + t;
      assert ("." + t)[1..] == t;
    } else {
      var p' := p[1..];
      assert '.' !in p' by {
        forall i | 0 <= i < |p'| ensures p'[i] != '.' {
          assert p'[i] == p[i + 1];
        }
      }
      SplitAtFirstDot(p', t);
      assert (p + "." + t)[1..] == p' + "." + t;
      assert (p + "." + t)[0] == p[0];
      assert [p[0]] + p' == p;
    }
  }

  /** Two dot-free names joined by a dot split back into those two names. */
  lemma SplitTwo(a: string, b: string)
    requires '.' !in a && '.' !in b
    ensures Split(a + "." + b) == [a, b]
  {
    SplitAtFirstDot(a, b);
    SplitDotFree(b);
  }

  /** Joining dot-free pieces and splitting again gives the pieces back. */
  lemma {:induction false} SplitJoin(parts: seq<string>)
    requires |parts| >= 1
    requires forall i :: 0 <= i < |parts| ==> '.' !in parts[i]
    ensures Split(Join(parts)) == parts
  {
    if |parts| == 1 {
      SplitDotFree(parts[0]);
    } else {
      SplitJoin(parts[1..]);
      SplitAtFirstDot(parts[0], Join(parts[1..]));
      assert [parts[0]] + parts[1..] == parts;
    }
  }

  /** Splitting a key and joining the pieces gives the key back. */
  lemma {:induction false} JoinSplit(s: string)
    ensures Join(Split(s)) == s
    decreases |s|
  {
    if |s| != 0 {
      var rest := Split(s[1..]);
      JoinSplit(s[1..]);
      if s[0] == '.' {
        assert s == "." + s[1..];
      } else if |rest| == 1 {
        assert s == [s[0]] + s[1..];
      } else {
        assert Join(rest) == rest[0] + "." + Join(rest[1..]);
        assert ([[s[0]] + rest[0]] + rest[1..])[1..] == rest[1..];
        assert s == [s[0]] + s[1..];
      }
    }
  }

  /** The pieces after the first, joined and split again, are exactly those
      pieces: the recursion of the dotted-path writer on the joined rest of
      the key visits precisely the remaining segments, one fewer each time. */
  lemma RestRoundTrip(k: string)
    requires |Split(k)| > 1
    ensures Split(Join(Split(k)[1..])) == Split(k)[1..]
    ensures |Split(Join(Split(k)[1..]))| == |Split(k)| - 1
  {
    SplitJoin(Split(k)[1..]);
  }
}
