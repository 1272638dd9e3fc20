/**
 * The contract of asyncio's counting semaphore, step by step between awaits. A permit handed to a
 * waiter is taken at once and owned by that waiter until its task resumes.
 */
module Semaphores {
  /** A queued task: still waiting, handed a permit, or cancelled while waiting. */
  datatype Waiter = Pending | Granted | Cancelled

  datatype Semaphore = Semaphore(value: nat, waiters: seq<Waiter>)

  function Count(ws: seq<Waiter>, s: Waiter): nat {
    if ws == [] then 0 else (if ws[0] == s then 1 else 0) + Count(ws[1..], s)
  }

  /** `locked()`: no free permit, or somebody who has not given up is already queued. */
  predicate Locked(s: Semaphore) {
    s.value == 0 || Count(s.waiters, Pending) + Count(s.waiters, Granted) > 0
  }

  /** Position of the first pending waiter, or the length. */
  function FirstPending(ws: seq<Waiter>): (i: nat)
    ensures i <= |ws|
    ensures i < |ws| ==> ws[i] == Pending
    ensures forall j :: 0 <= j < i ==> ws[j] != Pending
    ensures i == |ws| ==> Count(ws, Pending) == 0
  {
    if ws == [] then 0
    else if ws[0] == Pending then 0
    else 1 + FirstPending(ws[1..])
  }

  /** `_wake_up_next()`: the first pending waiter gets a permit. */
  function WakeNext(s: Semaphore): Semaphore
    requires s.value >= 1
  {
    var i := FirstPending(s.waiters);
    if i == |s.waiters| then s
    else Semaphore(s.value - 1, s.waiters[i := Granted])
  }

  /** `release()`. */
  function Release(s: Semaphore): Semaphore {
    WakeNext(s.(value := s.value + 1))
  }

  /** `acquire()` on an unlocked semaphore completes at once. */
  function Take(s: Semaphore): Semaphore
    requires !Locked(s)
  {
    s.(value := s.value - 1)
  }

  /** `acquire()` on a locked semaphore queues a waiter. */
  function Enqueue(s: Semaphore): Semaphore {
    s.(waiters := s.waiters + [Pending])
  }

  function Drop(ws: seq<Waiter>, i: nat): (r: seq<Waiter>)
    requires i < |ws|
    ensures |r| == |ws| - 1
  {
    ws[..i] + ws[i + 1..]
  }

  /** The waiter's task is cancelled while its future is still pending. */
  function CancelPending(s: Semaphore, i: nat): Semaphore
    requires i < |s.waiters| && s.waiters[i] == Pending
  {
    s.(waiters := s.waiters[i := Cancelled])
  }

  /** The task resumes with its permit; a permit freed meanwhile wakes the next waiter. */
  function ResumeGranted(s: Semaphore, i: nat): Semaphore
    requires i < |s.waiters| && s.waiters[i] == Granted
  {
    var left := s.(waiters := Drop(s.waiters, i));
    if left.value > 0 then WakeNext(left) else left
  }

  /** The task resumes cancelled: a permit it was given goes back, a pending one just leaves. */
  function ResumeCancelled(s: Semaphore, i: nat): Semaphore
    requires i < |s.waiters| && s.waiters[i] != Pending
  {
    var left := s.(waiters := Drop(s.waiters, i));
    if s.waiters[i] == Granted then Release(left) else left
  }

  // ------------------------------------------------------------------ invariants

  /** Permits that are free or on their way to a task. */
  function Permits(s: Semaphore): nat {
    s.value + Count(s.waiters, Granted)
  }

  /** No lost wake-up: with a permit free and a waiter pending, some waiter is about to run. */
  predicate NoLostWakeup(s: Semaphore) {
    s.value > 0 && Count(s.waiters, Pending) > 0 ==> Count(s.waiters, Granted) > 0
  }

  lemma {:induction false} CountConcat(a: seq<Waiter>, b: seq<Waiter>, s: Waiter)
    ensures Count(a + b, s) == Count(a, s) + Count(b, s)
  {
    if a == [] {
      assert a + b == b;
    } else {
      assert (a + b)[1..] == a[1..] + b;
      CountConcat(a[1..], b, s);
    }
  }

  lemma {:induction false} CountSplit(ws: seq<Waiter>, i: nat, s: Waiter)
    requires i < |ws|
    ensures Count(ws, s) == Count(Drop(ws, i), s) + (if ws[i] == s then 1 else 0)
  {
    assert ws == ws[..i] + ([ws[i]] + ws[i + 1..]);
    CountConcat(ws[..i], [ws[i]] + ws[i + 1..], s);
    assert ([ws[i]] + ws[i + 1..])[1..] == ws[i + 1..];
    CountConcat(ws[..i], ws[i + 1..], s);
  }

  lemma {:induction false} CountUpdate(ws: seq<Waiter>, i: nat, w: Waiter, s: Waiter)
    requires i < |ws|
    ensures Count(ws[i := w], s)
         == Count(ws, s) - (if ws[i] == s then 1 else 0) + (if w == s then 1 else 0)
  {
    CountSplit(ws, i, s);
    CountSplit(ws[i := w], i, s);
    assert Drop(ws[i := w], i) == Drop(ws, i);
  }

  lemma {:induction false} WakeNextConserves(s: Semaphore)
    requires s.value >= 1
    ensures Permits(WakeNext(s)) == Permits(s) && |WakeNext(s).waiters| == |s.waiters|
    ensures NoLostWakeup(WakeNext(s))
  {
    var i := FirstPending(s.waiters);
    if i < |s.waiters| {
      CountUpdate(s.waiters, i, Granted, Granted);
    }
  }

  /** A release returns exactly one permit, to the pool or to a waiter. */
  lemma {:induction false} ReleaseConserves(s: Semaphore)
    ensures Permits(Release(s)) == Permits(s) + 1 && |Release(s).waiters| == |s.waiters|
    ensures NoLostWakeup(Release(s))
  {
    WakeNextConserves(s.(value := s.value + 1));
  }

  lemma {:induction false} TakeConserves(s: Semaphore)
    requires !Locked(s) && NoLostWakeup(s)
    ensures Permits(Take(s)) == Permits(s) - 1 && NoLostWakeup(Take(s))
  {
  }

  /** Queueing behind a locked semaphore takes no permit and strands nobody. */
  lemma {:induction false} EnqueueConserves(s: Semaphore)
    requires Locked(s) && NoLostWakeup(s)
    ensures Permits(Enqueue(s)) == Permits(s) && NoLostWakeup(Enqueue(s))
    ensures |Enqueue(s).waiters| == |s.waiters| + 1
  {
    CountConcat(s.waiters, [Pending], Granted);
    CountConcat(s.waiters, [Pending], Pending);
  }

  lemma {:induction false} CancelPendingConserves(s: Semaphore, i: nat)
    requires i < |s.waiters| && s.waiters[i] == Pending && NoLostWakeup(s)
    ensures Permits(CancelPending(s, i)) == Permits(s) && NoLostWakeup(CancelPending(s, i))
  {
    CountUpdate(s.waiters, i, Cancelled, Granted);
    CountUpdate(s.waiters, i, Cancelled, Pending);
  }

  /** The resumed task takes its permit along; everybody else's permits are unchanged. */
  lemma {:induction false} ResumeGrantedConserves(s: Semaphore, i: nat)
    requires i < |s.waiters| && s.waiters[i] == Granted && NoLostWakeup(s)
    ensures Permits(ResumeGranted(s, i)) == Permits(s) - 1 && NoLostWakeup(ResumeGranted(s, i))
    ensures |ResumeGranted(s, i).waiters| == |s.waiters| - 1
  {
    CountSplit(s.waiters, i, Granted);
    var left := s.(waiters := Drop(s.waiters, i));
    if left.value > 0 {
      WakeNextConserves(left);
    }
  }

  /** A cancelled waiter takes nothing with it, whether or not it had been given a permit. */
  lemma {:induction false} ResumeCancelledConserves(s: Semaphore, i: nat)
    requires i < |s.waiters| && s.waiters[i] != Pending && NoLostWakeup(s)
    ensures Permits(ResumeCancelled(s, i)) == Permits(s) && NoLostWakeup(ResumeCancelled(s, i))
    ensures |ResumeCancelled(s, i).waiters| == |s.waiters| - 1
  {
    CountSplit(s.waiters, i, Granted);
    CountSplit(s.waiters, i, Pending);
    if s.waiters[i] == Granted {
      ReleaseConserves(s.(waiters := Drop(s.waiters, i)));
    }
  }

  /** Nobody overtakes: only a semaphore whose queue has been given up by all serves a newcomer at once. */
  lemma {:induction false} NoOvertaking(s: Semaphore)
    ensures !Locked(s) <==> s.value > 0 && forall k :: 0 <= k < |s.waiters| ==> s.waiters[k] == Cancelled
  {
    NoneCounted(s.waiters);
  }

  lemma {:induction false} NoneCounted(ws: seq<Waiter>)
    ensures Count(ws, Pending) + Count(ws, Granted) == 0 <==> forall k :: 0 <= k < |ws| ==> ws[k] == Cancelled
  {
    if ws != [] {
      NoneCounted(ws[1..]);
      assert ws == [ws[0]] + ws[1..];
    }
  }

  /** First come, first served: a freed permit goes to the first in line. */
  lemma {:induction false} FirstInLine(s: Semaphore, i: nat)
    requires i < |s.waiters| && s.waiters[i] == Pending && forall k :: 0 <= k < i ==> s.waiters[k] != Pending
    ensures Release(s) == Semaphore(s.value, s.waiters[i := Granted])
  {
  }
}
