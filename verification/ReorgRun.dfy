/**
 How a run of steps ends when each step may fail and some of the states reached
 on the way are committed.
 */
module ReorgRun {
  import opened Wrappers

  /**
   A run of `count` steps from `start`: what each step leads to, the block that it
   applies, which blocks can be judged and which of them are worth a commit.
   `saved` is what was committed before.
   */
  datatype Run<!S, !B, !E> = Run(
    count: nat, nth: nat -> B, connect: (nat, S) -> Result<S, E>, judged: B -> bool, beats: B -> bool, start: S,
      saved: S)
  {
    /** The state after `n` steps, if they all succeed. */
    ghost function Reached(n: nat): Option<S> {
      if n == 0 then Some(start)
      else
        var before := Reached(n - 1);
        if before.None? then None
        else
          var r := connect(n - 1, before.value);
          if r.Ok? then Some(r.value) else None
    }

    /** The first `n` steps succeed, and each block on the way can be judged. */
    ghost predicate Passed(n: nat) {
      Reached(n).Some? && forall i | 0 <= i < n :: judged(nth(i))
    }

    /** What is committed after `n` steps: the state reached by the last of them that is worth it. */
    ghost function CommittedAt(n: nat): S {
      if n == 0 then saved
      else if beats(nth(n - 1)) && Reached(n).Some? then Reached(n).value
      else CommittedAt(n - 1)
    }

    /** After `n` steps the open state is `s`, and `committed` is committed. */
    ghost predicate Going(n: nat, s: S, committed: S) {
      n <= count && Passed(n) && Reached(n) == Some(s) && committed == CommittedAt(n)
    }

    /** Step `n` is the first that fails: it does not connect, or its block cannot be judged. */
    ghost predicate FailsAt(n: nat, failure: Option<E>) {
      && n < count && Passed(n)
      && match connect(n, Reached(n).value)
         case Err(e) => failure == Some(e)
         case Ok(_) => failure == None && !judged(nth(n))
    }

    /** What is committed is what was, or the state of the last block on the way that is worth it. */
    lemma {:induction false} CommittedBeats(n: nat) returns (m: nat)
      ensures m <= n && (m == 0 ==> CommittedAt(n) == saved)
      ensures m > 0 ==> beats(nth(m - 1)) && Reached(m) == Some(CommittedAt(n))
      ensures forall i | m <= i < n && Reached(i + 1).Some? :: !beats(nth(i))
    {
      if n == 0 || (beats(nth(n - 1)) && Reached(n).Some?) {
        m := n;
      } else {
        m := CommittedBeats(n - 1);
      }
    }

    lemma LastStep(n: nat, e: S) returns (s: S)
      requires 0 < n && Reached(n) == Some(e)
      ensures Reached(n - 1) == Some(s) && connect(n - 1, s) == Ok(e)
    {
      s := Reached(n - 1).value;
    }

    lemma Starts()
      ensures Going(0, start, saved)
    {
    }

    /** One step further. */
    lemma GoesOn(n: nat, s: S, committed: S, t: S, committed2: S)
      requires n < count && Going(n, s, committed) && connect(n, s) == Ok(t) && judged(nth(n))
      requires committed2 == if beats(nth(n)) then t else committed
      ensures Going(n + 1, t, committed2)
    {
    }

    lemma FailsNow(n: nat, s: S, committed: S, failure: Option<E>)
      requires n < count && Going(n, s, committed)
      requires match connect(n, s) case Err(e) => failure == Some(e) case Ok(_) => failure == None && !judged(nth(n))
      ensures FailsAt(n, failure) && committed == CommittedAt(n)
    {
    }

    lemma {:induction false} StaysStuck(m: nat, n: nat)
      requires m <= n && Reached(m).None?
      ensures Reached(n).None?
    {
      if m < n {
        StaysStuck(m, n - 1);
      }
    }

    /** A run passes as a whole exactly if no step of it fails. */
    lemma FailedNotPassed(n: nat, failure: Option<E>)
      requires FailsAt(n, failure)
      ensures !Passed(count)
    {
      if Reached(n + 1).None? {
        StaysStuck(n + 1, count);
      }
    }

    lemma NeverPasses()
      requires count > 0 && connect(0, start).Err?
      ensures !Passed(count)
    {
      StaysStuck(1, count);
    }

    /** A run whose first step fails, fails there. */
    lemma FirstFails(n: nat, failure: Option<E>)
      requires FailsAt(n, failure) && connect(0, start).Err?
      ensures n == 0 && failure == Some(connect(0, start).error)
    {
      if n > 0 {
        StaysStuck(1, n);
      }
    }
  }
}
