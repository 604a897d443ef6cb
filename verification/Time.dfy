/** The clock the services read. */
module Time {

  /** A clock that never runs backwards. */
  class Clock {
    var reading: int

    method Now() returns (t: int)
      modifies this
      ensures t == reading >= old(reading)
    {
      var elapsed: int := *;
      if elapsed > 0 {
        reading := reading + elapsed;
      }
      t := reading;
    }
  }
}
