/** The class `printer` of `syn_multi_thread.cpp`, updated in place. Each handler,
    run alone as the strand makes it run, is one `Fire` of `StrandSpec`. */
module Printer {
  import opened StrandSpec

  const LIMIT := 10
  const TIMER1: Timer := 1
  const TIMER2: Timer := 2

  class Printer {
    var count: nat
    var armed1: bool
    var armed2: bool
    ghost var printed: seq<(Timer, nat)>
    ghost var ended: set<Timer>
    ghost var ends: nat

    ghost function View(): Sequential
      reads this
    {
      Sequential(count, printed, ended, ends)
    }

    constructor ()
      ensures View() == FireAll(LIMIT, []) && armed1 && armed2
    {
      count, armed1, armed2 := 0, true, true;
      printed, ended, ends := [], {}, 0;
    }

    /** The handler of the first timer: it re-arms exactly when it has counted. */
    method Print1()
      modifies this`count, this`armed1, this`printed, this`ended, this`ends
      ensures View() == Fire(old(View()), LIMIT, TIMER1)
      ensures armed1 <==> count != old(count)
    {
      armed1 := false;
      if count < LIMIT {
        printed := printed + [(TIMER1, count)];
        count := count + 1;
        armed1 := true;
      } else {
        ended, ends := ended + {TIMER1}, ends + 1;
      }
    }

    /** The handler of the second timer. */
    method Print2()
      modifies this`count, this`armed2, this`printed, this`ended, this`ends
      ensures View() == Fire(old(View()), LIMIT, TIMER2)
      ensures armed2 <==> count != old(count)
    {
      armed2 := false;
      if count < LIMIT {
        printed := printed + [(TIMER2, count)];
        count := count + 1;
        armed2 := true;
      } else {
        ended, ends := ended + {TIMER2}, ends + 1;
      }
    }
  }
}
