/** DriverManager: the per-thread browser slot. Java keeps it in a
    ThreadLocal; here the slots are a map from an explicit thread id to the
    bound driver, and every operation names the calling thread. */
module Drivers {
  import opened Wrappers
  import opened WebDriver

  type ThreadId = nat

  /** What getDriver finds in a thread's slot: the bound driver, or an
      IllegalStateException when nothing is bound. */
  function Current(slots: map<ThreadId, Driver>, t: ThreadId): (r: Result<Driver, Failure>)
    ensures r.Ok? <==> t in slots
    ensures r.Ok? ==> r.value == slots[t]
    ensures r.Err? ==> r.error == IllegalState
  {
    if t in slots then Ok(slots[t]) else Err(IllegalState)
  }

  class DriverManager {
    var slots: map<ThreadId, Driver>

    constructor ()
      ensures slots == map[]
    {
      slots := map[];
    }

    /** setDriver: binds the driver to the thread's slot. An existing binding
        is overwritten without a check. */
    method SetDriver(t: ThreadId, driver: Driver)
      modifies this
      ensures slots == old(slots)[t := driver]
      ensures Current(slots, t) == Ok(driver)
      ensures forall u :: u != t ==> Current(slots, u) == Current(old(slots), u)
    {
      slots := slots[t := driver];
    }

    /** getDriver: the driver most recently bound by this thread. */
    method GetDriver(t: ThreadId) returns (r: Result<Driver, Failure>)
      ensures r == Current(slots, t)
    {
      if t in slots {
        r := Ok(slots[t]);
      } else {
        r := Err(IllegalState);
      }
    }

    /** quitDriver: with an empty slot, nothing happens. Otherwise the bound
        driver is quit and the slot is emptied, also when quit throws (in
        which case the exception propagates). */
    method QuitDriver(t: ThreadId) returns (r: Outcome<Failure>)
      modifies this, if t in slots then {slots[t]} else {}
      ensures t !in old(slots) ==> slots == old(slots) && r == Pass
      ensures t in old(slots) ==>
                var d := old(slots)[t];
                && slots == old(slots) - {t}
                && d.trace == old(d.trace) + [Quit]
                && r == d.page.perform(old(d.trace), Quit)
      ensures Current(slots, t) == Err(IllegalState)
      ensures forall u :: u != t ==> Current(slots, u) == Current(old(slots), u)
    {
      if t in slots {
        var d := slots[t];
        r := d.Perform(Quit);
        slots := slots - {t};
      } else {
        r := Pass;
      }
    }
  }
}
