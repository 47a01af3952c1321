/**
 Requests for memory and files, which may be refused at any time.
 */
module Requests {

  /** Whether a request is met; where everything is granted, it is. */
  method Ask(granted: bool) returns (met: bool)
    ensures granted ==> met
  {
    met := *;
    met := met || granted;
  }
}
