/**
 * `ringLogBuffer`: a fixed number of string slots written round-robin, which keeps the last
 * lines of ffmpeg's log. Slots are written in place and the write index wraps modulo the size.
 */
module RingLog {
  import opened Text

  /**
   * Slot `j` after the lines `pushed` went into a ring of `size` slots: the last line whose
   * push number is congruent to `j` modulo `size`, or "" when no push reached the slot.
   */
  function SlotAfter(pushed: seq<string>, size: nat, j: nat): (r: string)
    requires size > 0
    ensures r == "" || r in pushed
  {
    if |pushed| == 0 then ""
    else if (|pushed| - 1) % size == j then pushed[|pushed| - 1]
    else SlotAfter(pushed[..|pushed| - 1], size, j)
  }

  /** All the slots, in storage order. */
  function Window(pushed: seq<string>, size: nat): (r: seq<string>)
    ensures |r| == size
  {
    if size == 0 then [] else seq(size, j requires 0 <= j < size => SlotAfter(pushed, size, j))
  }

  /** The line pushed last among the last `size` pushes sits in the slot of its push number. */
  lemma {:induction false} SlotRecent(pushed: seq<string>, size: nat, t: nat)
    requires size > 0 && t < |pushed| && |pushed| <= t + size
    ensures SlotAfter(pushed, size, t % size) == pushed[t]
    decreases |pushed|
  {
    var n := |pushed|;
    if t < n - 1 {
      var d := n - 1 - t;
      assert 0 < d < size;
      CloseIndicesDiffer(n - 1, t, size);
      SlotRecent(pushed[..n - 1], size, t);
      assert pushed[..n - 1][t] == pushed[t];
    }
  }

  lemma MulStep(k: nat, size: nat)
    ensures (k + 1) * size == k * size + size && k * size >= 0
  {
  }

  /** The remainder is the only r below the divisor with a == q * size + r. */
  lemma ModUnique(a: nat, size: nat, q: nat, r: nat)
    requires 0 <= r < size && a == q * size + r
    ensures a % size == r
  {
    var q', r' := a / size, a % size;
    assert q' * size + r' == q * size + r;
    if q' > q {
      MulStep(q' - q - 1, size);
    } else if q' < q {
      MulStep(q - q' - 1, size);
    }
  }

  lemma CloseIndicesDiffer(a: nat, b: nat, size: nat)
    requires b < a < b + size
    ensures a % size != b % size
  {
    var q, rb := b / size, b % size;
    var d := a - b;
    if rb + d < size {
      ModUnique(a, size, q, rb + d);
    } else {
      assert a == (q + 1) * size + (rb + d - size);
      ModUnique(a, size, q + 1, rb + d - size);
    }
  }

  /** Advancing the index modulo the size follows the push count. */
  lemma ModSuccessor(n: nat, size: nat)
    requires size > 0
    ensures (n % size + 1) % size == (n + 1) % size
  {
    var q, r := n / size, n % size;
    assert n == q * size + r;
    if r + 1 < size {
      ModUnique(r + 1, size, 0, r + 1);
      ModUnique(n + 1, size, q, r + 1);
    } else {
      MulStep(q, size);
      ModUnique(size, size, 1, 0);
      ModUnique(n + 1, size, q + 1, 0);
    }
  }

  /** A slot that no push has reached yet is still empty. */
  lemma {:induction false} SlotUnused(pushed: seq<string>, size: nat, j: nat)
    requires size > 0 && |pushed| <= j < size
    ensures SlotAfter(pushed, size, j) == ""
    decreases |pushed|
  {
    if |pushed| > 0 {
      SlotUnused(pushed[..|pushed| - 1], size, j);
    }
  }

  /**
   * After k pushes into `size` slots the ring holds exactly the last min(k, size) lines, the
   * push number t in slot t mod size, and the slots no push has reached are empty.
   */
  lemma WindowHoldsRecent(pushed: seq<string>, size: nat)
    requires size > 0
    ensures forall t :: 0 <= t < |pushed| && |pushed| <= t + size ==> Window(pushed, size)[t % size] == pushed[t]
    ensures forall j :: |pushed| <= j < size ==> Window(pushed, size)[j] == ""
  {
    forall t | 0 <= t < |pushed| && |pushed| <= t + size
      ensures Window(pushed, size)[t % size] == pushed[t]
    {
      SlotRecent(pushed, size, t);
    }
    forall j | |pushed| <= j < size ensures Window(pushed, size)[j] == "" {
      SlotUnused(pushed, size, j);
    }
  }

  /** One push overwrites exactly the slot of its push number. */
  lemma WindowPush(pushed: seq<string>, size: nat, line: string)
    requires size > 0
    ensures Window(pushed + [line], size) == Window(pushed, size)[|pushed| % size := line]
  {
    var after := pushed + [line];
    assert after[..|after| - 1] == pushed;
    forall j | 0 <= j < size
      ensures Window(after, size)[j] == Window(pushed, size)[|pushed| % size := line][j]
    {
    }
  }

  class RingLogBuffer {
    var content: array<string>
    var size: nat
    /** The slot the next push writes. */
    var currentIndex: nat
    /** Every line pushed so far, oldest first. */
    ghost var pushed: seq<string>

    ghost predicate Valid()
      reads this, content
    {
      content.Length == size
      && content[..] == Window(pushed, size)
      && (size == 0 ==> pushed == [] && currentIndex == 0)
      && (size > 0 ==> currentIndex == |pushed| % size)
    }

    /** `NewRingLogBuffer(size)`: `size` empty slots and index 0. */
    constructor(size: nat)
      ensures Valid() && fresh(content)
      ensures this.size == size && currentIndex == 0 && pushed == []
      ensures content[..] == seq(size, _ => "")
    {
      content := new string[size](_ => "");
      this.size := size;
      currentIndex := 0;
      pushed := [];
      new;
      assert forall j :: 0 <= j < size ==> content[j] == "";
      assert size > 0 ==> forall j :: 0 <= j < size ==> Window([], size)[j] == "";
    }

    /** Writes the line at the current index, then advances the index modulo the size. */
    method Push(line: string)
      requires Valid() && size > 0
      modifies this, content
      ensures Valid()
      ensures content == old(content) && size == old(size)
      ensures pushed == old(pushed) + [line]
      ensures content[..] == old(content[..])[old(currentIndex) := line]
      ensures currentIndex == (old(currentIndex) + 1) % size
    {
      ghost var before := content[..];
      WindowPush(pushed, size, line);
      var i := currentIndex;
      content[i] := line;
      assert content[..] == before[i := line];
      ModSuccessor(|pushed|, size);
      currentIndex := (i + 1) % size;
      pushed := pushed + [line];
    }

    /** `String`: all the slots joined with newlines, in storage order, empty slots included. */
    function String(): (r: string)
      requires Valid()
      reads this, content
      ensures r == Join(Window(pushed, size), "\n")
    {
      Join(content[..], "\n")
    }
  }

  /** When no line holds a newline, the text reads back as the slots, one per line. */
  lemma StringSplitsIntoSlots(b: RingLogBuffer)
    requires b.Valid() && b.size > 0
    requires forall l :: l in b.pushed ==> '\n' !in l
    ensures Split(b.String(), '\n') == b.content[..]
  {
    var w := Window(b.pushed, b.size);
    forall l | l in w ensures '\n' !in l {
      var j :| 0 <= j < |w| && w[j] == l;
      assert l == SlotAfter(b.pushed, b.size, j);
    }
    SplitJoin(w, '\n');
  }
}
