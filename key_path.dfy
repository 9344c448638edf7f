/** Dotted configuration keys (`"general.language"`) and Python's `str.split('.')`. */
module KeyPath {

  /** `s.split('.')`: the pieces between the dots, empty pieces included, so the result is
      never empty (`"".split('.') == [""]`). */
  function Split(s: string): (parts: seq<string>)
    ensures |parts| >= 1
    ensures forall i :: 0 <= i < |parts| ==> '.' !in parts[i]
    decreases |s|
  {
    if |s| == 0 then [""]
    else
      var rest := Split(s[1..]);
      if s[0] == '.' then [""] + rest
      else [[s[0]] + rest[0]] + rest[1..]
  }

  /** `'.'.join(parts)`. */
  function Join(parts: seq<string>): string
    requires |parts| >= 1
    decreases |parts|
  {
    if |parts| == 1 then parts[0] else parts[0] + "." + Join(parts[1..])
  }

  /** Joining the pieces of a key gives the key back. */
  lemma {:induction false} JoinSplit(s: string)
    ensures Join(Split(s)) == s
    decreases |s|
  {
    if |s| > 0 {
      var rest := Split(s[1..]);
      JoinSplit(s[1..]);
      if s[0] == '.' {
        assert Split(s)[1..] == rest;
        assert s == [s[0]] + s[1..];
      } else {
        var parts := Split(s);
        assert parts[1..] == rest[1..];
        if |rest| == 1 {
          assert s == [s[0]] + rest[0];
        } else {
          assert Join(rest) == rest[0] + "." + Join(rest[1..]);
          assert s == [s[0]] + s[1..];
        }
      }
    }
  }

  /** Splitting a join of dot-free pieces gives the pieces back. */
  lemma {:induction false} SplitJoin(parts: seq<string>)
    requires |parts| >= 1
    requires forall i :: 0 <= i < |parts| ==> '.' !in parts[i]
    ensures Split(Join(parts)) == parts
    decreases |parts|, |parts[0]|
  {
    if |parts| == 1 {
      SplitPlain(parts[0]);
    } else {
      var tail := parts[1..];
      SplitJoin(tail);
      SplitPrefix(parts[0], Join(tail));
    }
  }

  /** A dot-free string splits into itself. */
  lemma {:induction false} SplitPlain(s: string)
    requires '.' !in s
    ensures Split(s) == [s]
    decreases |s|
  {
    if |s| > 0 {
      assert '.' !in s[1..] by {
        forall i | 0 <= i < |s[1..]| ensures s[1..][i] != '.' {
          assert s[1..][i] == s[i + 1];
        }
      }
      SplitPlain(s[1..]);
      assert s == [s[0]] + s[1..];
    }
  }

  /** A dot-free piece followed by a dot and a key splits into that piece and the key's
      pieces. */
  lemma {:induction false} SplitPrefix(head: string, t: string)
    requires '.' !in head
    ensures Split(head + "." + t) == [head] + Split(t)
    decreases |head|
  {
    var s := head + "." + t;
    if |head| == 0 {
      assert s == "." + t;
      assert s[1..] == t;
    } else {
      assert '.' !in head[1..] by {
        forall i | 0 <= i < |head[1..]| ensures head[1..][i] != '.' {
          assert head[1..][i] == head[i + 1];
        }
      }
      SplitPrefix(head[1..], t);
      assert s[1..] == head[1..] + "." + t;
      assert s[0] == head[0];
      assert [head[0]] + head[1..] == head;
    }
  }
}
