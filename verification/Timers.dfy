/**
 A single-shot timer as src/library/timer.hpp keeps it: its fire time is meaningful only
 while it is running.
 */
module Timers {

  datatype Timer = Stopped | Running(fireTime: int)
}
