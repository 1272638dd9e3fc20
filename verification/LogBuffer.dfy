/** The bounded log buffer of an engine process: the most recent lines within two limits. */
module LogBuffer {
  /** Characters held. */
  function Total(lines: seq<string>): nat {
    if lines == [] then 0 else |lines[0]| + Total(lines[1..])
  }

  /** Within both limits; a single line may be as long as it likes. */
  predicate Fits(lines: seq<string>, maxLines: nat, maxBytes: int) {
    |lines| <= maxLines && (Total(lines) <= maxBytes || |lines| <= 1)
  }

  /** What is kept of everything ever appended: the longest suffix within the limits. */
  function Retained(history: seq<string>, maxLines: nat, maxBytes: int): (r: seq<string>)
    decreases |history|
  {
    if history == [] || Fits(history, maxLines, maxBytes) then history
    else Retained(history[1..], maxLines, maxBytes)
  }

  lemma {:induction false} RetainedIsLongest(history: seq<string>, maxLines: nat, maxBytes: int)
    ensures var r := Retained(history, maxLines, maxBytes);
            && |r| <= |history| && r == history[|history| - |r|..]
            && Fits(r, maxLines, maxBytes)
            && forall k :: 0 <= k < |history| - |r| ==> !Fits(history[k..], maxLines, maxBytes)
    decreases |history|
  {
    if history != [] && !Fits(history, maxLines, maxBytes) {
      var rest := history[1..];
      RetainedIsLongest(rest, maxLines, maxBytes);
      var r := Retained(rest, maxLines, maxBytes);
      assert rest[|rest| - |r|..] == history[|history| - |r|..];
      assert history[0..] == history;
      forall k | 0 <= k < |history| - |r|
        ensures !Fits(history[k..], maxLines, maxBytes)
      {
        if k > 0 {
          assert history[k..] == rest[k - 1..];
        }
      }
    } else {
      assert history[0..] == history;
    }
  }

  lemma {:induction false} TotalConcat(a: seq<string>, b: seq<string>)
    ensures Total(a + b) == Total(a) + Total(b)
  {
    if a == [] {
      assert a + b == b;
    } else {
      assert (a + b)[1..] == a[1..] + b;
      TotalConcat(a[1..], b);
    }
  }

  /** What no longer fits never fits again. */
  lemma {:induction false} OverflowLasts(lines: seq<string>, line: string, maxLines: nat, maxBytes: int)
    requires !Fits(lines, maxLines, maxBytes)
    ensures !Fits(lines + [line], maxLines, maxBytes)
  {
    TotalConcat(lines, [line]);
  }

  /** Forgetting lines early never changes what is kept later. */
  lemma {:induction false} RetainedStep(history: seq<string>, line: string, maxLines: nat, maxBytes: int)
    ensures Retained(history + [line], maxLines, maxBytes)
         == Retained(Retained(history, maxLines, maxBytes) + [line], maxLines, maxBytes)
    decreases |history|
  {
    if history != [] && !Fits(history, maxLines, maxBytes) {
      OverflowLasts(history, line, maxLines, maxBytes);
      assert (history + [line])[1..] == history[1..] + [line];
      RetainedStep(history[1..], line, maxLines, maxBytes);
    }
  }

  class RingBuffer {
    var lines: seq<string>
    var bytes: int
    const maxLines: nat
    const maxBytes: int
    ghost var history: seq<string>  // every line ever appended

    ghost predicate Valid()
      reads this
    {
      lines == Retained(history, maxLines, maxBytes) && bytes == Total(lines)
    }

    constructor (maxLines: nat, maxBytes: int)
      ensures Valid() && history == [] && this.maxLines == maxLines && this.maxBytes == maxBytes
    {
      this.lines, this.bytes, this.history := [], 0, [];
      this.maxLines, this.maxBytes := maxLines, maxBytes;
    }

    /** Adds a line and drops the oldest ones until both limits hold again. */
    method Append(line: string)
      requires Valid()
      modifies this
      ensures Valid() && history == old(history) + [line]
    {
      RetainedStep(history, line, maxLines, maxBytes);
      TotalConcat(lines, [line]);
      history := history + [line];
      lines := lines + [line];
      bytes := bytes + |line|;
      while |lines| > maxLines || (bytes > maxBytes && |lines| > 1)
        invariant history == old(history) + [line] && bytes == Total(lines)
        invariant Retained(lines, maxLines, maxBytes) == Retained(history, maxLines, maxBytes)
        decreases |lines|
      {
        bytes := bytes - |lines[0]|;
        lines := lines[1..];
      }
    }
  }
}
