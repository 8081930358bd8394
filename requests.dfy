/**
 * The unit of work (blocks/request.go). A Request is owned by exactly one actor
 * at a time, so the in-place updates of its remaining service time are modelled
 * as replacing the owner's value.
 */
module Requests {

  datatype Request = Request(
    initTime: real,        // arrival time, set from the clock at creation
    serviceTime: real,     // remaining service time, decreased while served
    serviceTimeImm: real,  // the service time asked for at creation; never changed
    processed: bool,
    deadLine: real,
    propDelay: real,       // extra delay added to the sojourn time
    qos: int)

  /** NewRequest: the clock value `now` is GetTime() at the call. */
  function NewRequest(now: real, serviceTime: real): (r: Request)
    ensures r.initTime == now && r.serviceTime == serviceTime
    ensures GetInitialServiceTime(r) == serviceTime
    ensures r.propDelay == 0.0 && !r.processed && r.deadLine == 0.0 && r.qos == 0
  {
    Request(now, serviceTime, serviceTime, false, 0.0, 0.0, 0)
  }

  function GetInitialServiceTime(r: Request): real
  {
    r.serviceTimeImm
  }

  function GetServiceTime(r: Request): real
  {
    r.serviceTime
  }

  /** getDelay: the sojourn time when the request is drained at time `now`. */
  function GetDelay(now: real, r: Request): real
  {
    now - r.initTime + r.propDelay
  }

  /** GetCmpVal: the key of the arrival-ordered priority queue. */
  function GetCmpVal(r: Request): real
  {
    r.initTime
  }

  /**
   * SubServiceTime (called by every preemptive processor): lowers the remaining
   * time and nothing else.
   */
  function SubServiceTime(r: Request, d: real): (r': Request)
    ensures GetServiceTime(r') == GetServiceTime(r) - d
    ensures GetInitialServiceTime(r') == GetInitialServiceTime(r)
    ensures GetCmpVal(r') == GetCmpVal(r)
    ensures forall now :: GetDelay(now, r') == GetDelay(now, r)
  {
    r.(serviceTime := r.serviceTime - d)
  }

  function Sum(ds: seq<real>): real
  {
    if ds == [] then 0.0 else Sum(ds[..|ds| - 1]) + ds[|ds| - 1]
  }

  /** The request after being served for the slices ds, in order. */
  function ServeSlices(r: Request, ds: seq<real>): Request
  {
    if ds == [] then r else SubServiceTime(ServeSlices(r, ds[..|ds| - 1]), ds[|ds| - 1])
  }

  /**
   * However often a request is preempted, its remaining time is the initial
   * one minus what it was served, and the immutable copy, the comparison value
   * and the sojourn time are untouched.
   */
  lemma {:induction false} ServiceAccounting(now: real, s: real, ds: seq<real>)
    ensures GetServiceTime(ServeSlices(NewRequest(now, s), ds)) == s - Sum(ds)
    ensures GetInitialServiceTime(ServeSlices(NewRequest(now, s), ds)) == s
    ensures GetCmpVal(ServeSlices(NewRequest(now, s), ds)) == now
    ensures forall t :: GetDelay(t, ServeSlices(NewRequest(now, s), ds)) == t - now
  {
    if ds != [] {
      ServiceAccounting(now, s, ds[..|ds| - 1]);
    }
  }
}
