/** The array behind both undo managers, as a value: `push` appends, `pop`
    takes the last entry or reports nothing on an empty stack. */
module UndoStack {
  import opened Wrappers
  import opened Seqs

  function Push<T>(s: seq<T>, m: T): (r: seq<T>)
    ensures |r| == |s| + 1 && r[|s|] == m && r[..|s|] == s
  {
    s + [m]
  }

  /** `Array.prototype.pop`: the removed entry and what remains. */
  function Pop<T>(s: seq<T>): (r: (Option<T>, seq<T>))
    ensures s == [] <==> r.0 == None
    ensures s == [] ==> r.1 == []
    ensures s != [] ==> r.0 == Some(s[|s| - 1]) && r.1 + [s[|s| - 1]] == s
  {
    if s == [] then (None, []) else (Some(s[|s| - 1]), s[..|s| - 1])
  }

  /** The entries k successive pops return, and the stack they leave. */
  function PopN<T>(s: seq<T>, k: nat): (r: (seq<T>, seq<T>))
    requires k <= |s|
    ensures |r.0| == k && |r.1| == |s| - k
  {
    if k == 0 then ([], s)
    else
      var (top, rest) := Pop(s);
      var (more, left) := PopN(rest, k - 1);
      ([top.value] + more, left)
  }

  /** A push followed by a pop returns the pushed entry and restores the stack. */
  lemma PopPush<T>(s: seq<T>, m: T)
    ensures Pop(Push(s, m)) == (Some(m), s)
  {
  }

  /** Last in, first out: pushing a list of entries and then popping as many
      returns them in reverse order and leaves the original stack. */
  lemma {:induction false} PushAllPopN<T>(s: seq<T>, ms: seq<T>)
    ensures PopN(s + ms, |ms|) == (Reverse(ms), s)
  {
    if ms == [] {
      assert s + ms == s;
    } else {
      var n := |ms| - 1;
      assert s + ms == (s + ms[..n]) + [ms[n]];
      PushAllPopN(s, ms[..n]);
      assert Pop(s + ms) == (Some(ms[n]), s + ms[..n]);
      assert PopN(s + ms, |ms|).0 == [ms[n]] + PopN(s + ms[..n], n).0;
      assert Reverse(ms) == [ms[n]] + Reverse(ms[..n]);
    }
  }
}
