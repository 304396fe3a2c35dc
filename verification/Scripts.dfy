/**
 What a protocol routine asks of the other end, as a script: actions, samples and polls in a
 fixed order.  A script is played against a sequence of inputs, one for each step, and says
 whether the routine succeeds, fails, or is still running, and which groups of bits it hands on.
 */
module Scripts {

  datatype Script<!I> =
    | Done
    | Act(next: Script<I>)
    | Read(bit: I -> bool, next: Script<I>)
    | Poll(ok: I -> bool, next: Script<I>)                      // fails when a missing level is late
    | Await(ok: I -> bool, next: Script<I>)                     // polls without a timeout
    | Emit(again: I -> bool, next: Script<I>)                   // hands the bits on, may start over

  datatype Status = Running | Succeeded | Failed

  datatype Outcome = Outcome(status: Status, groups: seq<seq<bool>>)

  /** What is left to do, with the bits read so far. */
  datatype Point<!I> = Point(cur: Script<I>, bits: seq<bool>)

  /** After one input: the routine has failed, or goes on, having handed on some groups. */
  datatype Move<!I> = Fail | Go(to: Point<I>, groups: seq<seq<bool>>)

  /** One input; `top` is where the routine starts over. */
  function Advance<I>(top: Script<I>, p: Point<I>, i: I, late: bool): Move<I> {
    match p.cur
    case Done => Go(p, [])
    case Act(next) => Go(Point(next, p.bits), [])
    case Read(bit, next) => Go(Point(next, p.bits + [bit(i)]), [])
    case Poll(ok, next) => if ok(i) then Go(Point(next, p.bits), []) else if late then Fail else Go(p, [])
    case Await(ok, next) => if ok(i) then Go(Point(next, p.bits), []) else Go(p, [])
    case Emit(again, next) => Go(Point(if again(i) then top else next, []), [p.bits])
  }

  /** The outcome of playing the rest of a script. */
  function Verdict<I>(top: Script<I>, p: Point<I>, late: I -> bool, env: seq<I>): Outcome
    decreases |env|
  {
    if p.cur.Done? then Outcome(Succeeded, [])
    else if env == [] then Outcome(Running, [])
    else
      match Advance(top, p, env[0], late(env[0]))
      case Fail => Outcome(Failed, [])
      case Go(to, groups) =>
        var o := Verdict(top, to, late, env[1..]);
        Outcome(o.status, groups + o.groups)
  }
}
