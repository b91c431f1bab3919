/** The global execution halt: a configuration flag, an in-process flag, and a sentinel
    file that outlives the process. */
module KillSwitching {
  import opened Wrappers

  datatype Kill = Kill(enabled: bool, tripped: bool, reason: Option<string>, sentinel: bool)

  predicate Active(k: Kill) { !k.enabled || k.tripped || k.sentinel }

  function Why(k: Kill): Option<string> {
    if !k.enabled then Some("execution_disabled")
    else if k.tripped then Some(if k.reason.Some? && k.reason.value != "" then k.reason.value else "tripped")
    else if k.sentinel then Some("halt_sentinel_present")
    else None
  }

  // Writing the sentinel may fail; the in-process flag is set regardless.
  function Trip(k: Kill, reason: string, written: bool): Kill {
    k.(tripped := true, reason := Some(reason), sentinel := k.sentinel || written)
  }

  // Removing the sentinel may fail; the in-process flag is cleared regardless.
  function Reset(k: Kill, removed: bool): Kill {
    k.(tripped := false, reason := None, sentinel := k.sentinel && !removed)
  }

  // A new process starts with the flag down and finds whatever file is there.
  function Restart(k: Kill): Kill { k.(tripped := false, reason := None) }

  datatype Event =
    | Tripping(reason: string, written: bool)
    | Resetting(removed: bool)
    | Restarting
    | FilePlaced                              // an operator drops the sentinel out of band
    | FileRemoved                             // or takes it away, as a resume in another process does
    | Enabling(on: bool)

  function Step(k: Kill, e: Event): Kill {
    match e
    case Tripping(reason, written) => Trip(k, reason, written)
    case Resetting(removed) => Reset(k, removed)
    case Restarting => Restart(k)
    case FilePlaced => k.(sentinel := true)
    case FileRemoved => k.(sentinel := false)
    case Enabling(on) => k.(enabled := on)
  }

  // Halted by a trip or a sentinel, whatever the configuration says.
  predicate HaltUp(k: Kill) { k.tripped || k.sentinel }

  // An event that finds the halt up and leaves it down.
  predicate Lifts(k: Kill, e: Event) { HaltUp(k) && !HaltUp(Step(k, e)) }

  // Only these do: a reset that leaves no file, a restart that finds none, and the file
  // going away where no trip is remembered.
  lemma LiftsIff(k: Kill, e: Event)
    ensures Lifts(k, e) <==>
      HaltUp(k) && match e
                   case Resetting(removed) => removed || !k.sentinel
                   case Restarting => !k.sentinel
                   case FileRemoved => !k.tripped
                   case _ => false
  {
  }

  // What only trips can do to the halt.
  predicate HaltGrows(before: Kill, after: Kill) {
    && after.enabled == before.enabled
    && (before.tripped ==> after.tripped) && (before.sentinel ==> after.sentinel)
  }

  class KillSwitch {
    var enabled: bool
    var tripped: bool
    var reason: Option<string>
    var sentinel: bool

    function View(): Kill
      reads this
    {
      Kill(enabled, tripped, reason, sentinel)
    }

    constructor (enabled: bool, sentinel: bool)
      ensures View() == Restart(Kill(enabled, false, None, sentinel))
    {
      this.enabled, tripped, reason, this.sentinel := enabled, false, None, sentinel;
    }

    method IsActive() returns (active: bool, why: Option<string>)
      ensures active == Active(View()) && why == Why(View())
      ensures active <==> why.Some?
    {
      if !enabled { return true, Some("execution_disabled"); }
      if tripped {
        return true, Some(if reason.Some? && reason.value != "" then reason.value else "tripped");
      }
      if sentinel { return true, Some("halt_sentinel_present"); }
      return false, None;
    }

    // The file system decides whether the sentinel gets written.
    method TripNow(why: string)
      modifies this
      ensures exists written :: View() == Trip(old(View()), why, written)
      ensures Active(View()) && tripped && enabled == old(enabled)
    {
      var written: bool := *;
      tripped, reason := true, Some(why);
      if written { sentinel := true; }
      assert View() == Trip(old(View()), why, written);
    }

    method ResetNow()
      modifies this
      ensures exists removed :: View() == Reset(old(View()), removed)
    {
      var removed: bool := *;
      tripped, reason := false, None;
      if sentinel && removed { sentinel := false; }
      assert View() == Reset(old(View()), removed);
    }

    // What an operator, a restart or the file system does from outside.
    method Apply(e: Event)
      modifies this
      ensures View() == Step(old(View()), e)
    {
      match e
      case Tripping(why, written) =>
        tripped, reason := true, Some(why);
        sentinel := sentinel || written;
      case Resetting(removed) =>
        tripped, reason := false, None;
        sentinel := sentinel && !removed;
      case Restarting => tripped, reason := false, None;
      case FilePlaced => sentinel := true;
      case FileRemoved => sentinel := false;
      case Enabling(on) => enabled := on;
    }
  }

  function Run(k: Kill, es: seq<Event>): Kill
    decreases |es|
  {
    if es == [] then k else Run(Step(k, es[0]), es[1..])
  }

  predicate KeepsFile(es: seq<Event>) { forall e :: e in es ==> !e.Resetting? && !e.FileRemoved? }

  // Once the sentinel is on disk, nothing but a reset or its removal lifts the halt: not
  // restarts, not the configuration flag, not further trips.
  lemma {:induction false} SentinelSurvives(k: Kill, es: seq<Event>)
    requires k.sentinel && KeepsFile(es)
    ensures Active(Run(k, es)) && Run(k, es).sentinel
    decreases |es|
  {
    if es != [] { SentinelSurvives(Step(k, es[0]), es[1..]); }
  }

  // A trip halts at once; it survives a restart exactly when the file exists after it,
  // or execution is disabled anyway.
  lemma TripDurableIff(k: Kill, reason: string, written: bool)
    ensures Active(Trip(k, reason, written))
    ensures Active(Restart(Trip(k, reason, written))) <==> written || k.sentinel || !k.enabled
  {
  }

  // A reset lifts the halt exactly when execution is enabled and no file is left behind.
  lemma ResetLiftsIff(k: Kill, removed: bool)
    ensures !Active(Reset(k, removed)) <==> k.enabled && (removed || !k.sentinel)
  {
  }
}
