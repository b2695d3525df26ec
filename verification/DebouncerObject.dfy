/**
 The debouncer as the source has it: an object whose map, flag and counter each locked section
 updates in place. Every method is one atomic step and is proved against DebouncerProtocol.Apply.
 */
module DebouncerObject {
  import opened StatusEvents
  import P = DebouncerProtocol

  class Debouncer {
    var timers: map<string, nat>  // instance to the number of its timer
    var stopped: bool
    var wg: int
    // The timers created so far and what their callbacks have done.
    var subs: seq<P.Submission>
    var phase: seq<P.Phase>
    var log: seq<nat>
    var stopping: nat
    var stopReturned: bool

    function View(): P.State
      reads this
    {
      P.State(subs, phase, timers, stopped, wg, log, stopping, stopReturned)
    }

    ghost predicate Valid()
      reads this
    {
      P.Inv(View())
    }

    constructor ()
      ensures Valid() && View() == P.INIT
    {
      timers, stopped, wg := map[], false, 0;
      subs, phase, log, stopping, stopReturned := [], [], [], 0, false;
    }

    method StopTimer(k: nat)
      requires k < |phase|
      modifies this`phase
      ensures phase == P.StopTimer(old(phase), k)
    {
      if phase[k] == P.Armed {
        phase := phase[k := P.Cancelled];
      }
    }

    method Submit(id: string, event: StatusEvent)
      requires Valid()
      modifies this
      ensures Valid() && View() == P.Apply(old(View()), P.Submit(id, event))
    {
      ghost var after := P.Apply(View(), P.Submit(id, event));
      P.SubmitKeepsInv(View(), id, event);
      if stopped {
        return;
      }
      if id in timers {
        StopTimer(timers[id]);
      }
      timers := timers[id := |subs|];
      subs := subs + [P.Submission(id, event)];
      phase := phase + [P.Armed];
      assert View() == after;
    }

    // The runtime fires timer `k` and starts its callback.
    method Expire(k: nat)
      requires Valid() && P.At(View(), k, P.Armed)
      modifies this`phase
      ensures Valid() && View() == P.Apply(old(View()), P.Fire(k))
    {
      P.FireKeepsInv(View(), k);
      phase := phase[k := P.Fired];
    }

    // The callback's locked section.
    method CallbackLocked(k: nat)
      requires Valid() && P.At(View(), k, P.Fired)
      modifies this
      ensures Valid() && View() == P.Apply(old(View()), P.Lock(k))
    {
      P.LockKeepsInv(View(), k);
      if stopped {
        phase := phase[k := P.Abandoned];
        return;
      }
      timers := timers - {subs[k].id};
      wg := wg + 1;
      phase := phase[k := P.Counted];
    }

    // The callback calls the publish function; the submission's event is what it passes.
    method CallPublish(k: nat) returns (event: StatusEvent)
      requires Valid() && P.At(View(), k, P.Counted)
      modifies this
      ensures Valid() && View() == P.Apply(old(View()), P.Publish(k))
      ensures event == subs[k].event && k !in old(log)
    {
      P.PublishKeepsInv(View(), k);
      event := subs[k].event;
      log := log + [k];
      phase := phase[k := P.Publishing];
    }

    method PublishReturns(k: nat)
      requires Valid() && P.At(View(), k, P.Publishing)
      modifies this`phase
      ensures Valid() && View() == P.Apply(old(View()), P.Return(k))
    {
      P.ReturnKeepsInv(View(), k);
      phase := phase[k := P.Returned];
    }

    method DeferredDone(k: nat)
      requires Valid() && P.At(View(), k, P.Returned)
      modifies this
      ensures Valid() && View() == P.Apply(old(View()), P.Done(k))
    {
      P.DoneKeepsInv(View(), k);
      wg := wg - 1;
      phase := phase[k := P.Finished];
    }

    // The loop of Stop: every timer in the map is stopped and its entry deleted.
    method StopAll()
      requires forall id :: id in timers ==> timers[id] < |phase|
      modifies this`timers, this`phase
      ensures timers == map[]
      ensures phase == P.StopTimers(old(phase), old(timers).Values)
    {
      ghost var gone: set<nat> := {};
      while timers != map[]
        invariant forall id :: id in timers ==> id in old(timers) && timers[id] == old(timers)[id]
        invariant forall id :: id in old(timers) && id !in timers ==> old(timers)[id] in gone
        invariant gone <= old(timers).Values
        invariant phase == P.StopTimers(old(phase), gone)
        decreases timers.Keys
      {
        var id :| id in timers.Keys;
        StopTimer(timers[id]);
        gone := gone + {timers[id]};
        assert phase == P.StopTimers(old(phase), gone);
        timers := timers - {id};
      }
      assert gone == old(timers).Values;
    }

    // The locked section of Stop.
    method StopLocked()
      requires Valid()
      modifies this
      ensures Valid() && View() == P.Apply(old(View()), P.StopLock)
    {
      ghost var after := P.Apply(View(), P.StopLock);
      P.StopLockKeepsInv(View());
      stopped := true;
      StopAll();
      stopping := stopping + 1;
      assert View() == after;
    }

    // Stop returns from waiting: the wait group has dropped to zero.
    method StopReturns()
      requires Valid() && stopping > 0 && wg == 0
      modifies this
      ensures Valid() && View() == P.Apply(old(View()), P.StopReturn)
    {
      P.StepKeepsInv(View(), P.StopReturn);
      stopping := stopping - 1;
      stopReturned := true;
    }
  }
}
