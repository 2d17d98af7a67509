/** Queues between threads, the life of a thread, and the shared failure state (src/WorkerContext.cpp). */
module Threads {
  import opened Bytes

  /** A FIFO: everything ever pushed, how much of it was popped, and the producer's done flag. */
  datatype Fifo<T> = Fifo(pushed: seq<T>, popped: nat, done: bool) {
    predicate Valid() { popped <= |pushed| }
    predicate Empty() { popped >= |pushed| }
    function Size(): int { |pushed| - popped }
    function Front(): T requires !Empty() { pushed[popped] }
    function Push(x: T): Fifo<T> { this.(pushed := pushed + [x]) }
    function PushAll(xs: seq<T>): Fifo<T> { this.(pushed := pushed + xs) }
    function Pop(): Fifo<T> { this.(popped := popped + 1) }
    function PopMany(n: nat): Fifo<T> { this.(popped := popped + n) }
    function StoreDone(): Fifo<T> { this.(done := true) }
  }

  /** The threads of a transfer. */
  datatype ThreadId = Reader | Encryptor | Sender | Receiver | Decryptor | Writer

  /** Where a thread is: in its function; returned (through its normal exit, or because it saw the abort
      flag); or handling an exception in two steps: raise the flag, then capture the exception. */
  datatype Life<T> = Live(at: T) | Exited(normal: bool) | Throwing | Raised | Dead {
    predicate Ended() { Exited? || Dead? }
    predicate Failed() { Throwing? || Raised? || Dead? }
  }

  /** The shared failure state of one side. */
  datatype Context = Context(abort: bool, exception: Option<ThreadId>) {
    /** First half of handle_exception. */
    function Raise(): Context { this.(abort := true) }

    /** Second half of handle_exception: only the first exception is kept. */
    function Capture(t: ThreadId): Context {
      if exception.None? then this.(exception := Some(t)) else this
    }
  }

  /** One step of a thread that handles an exception. */
  function Unwind<T>(life: Life<T>, ctx: Context, t: ThreadId): Option<(Life<T>, Context)> {
    match life
    case Throwing => Some((Raised, ctx.Raise()))
    case Raised => Some((Dead, ctx.Capture(t)))
    case _ => None
  }

  class WorkerContext {
    var abortFlag: bool
    var exceptionPtr: Option<ThreadId>

    function State(): Context
      reads this
    {
      Context(abortFlag, exceptionPtr)
    }

    constructor ()
      ensures State() == Context(false, None)
    {
      abortFlag, exceptionPtr := false, None;
    }

    method HandleException(t: ThreadId)
      modifies this
      ensures State() == old(State()).Raise().Capture(t)
      ensures State().abort && State().exception.Some?
      ensures old(State()).exception.Some? ==> State().exception == old(State()).exception
    {
      abortFlag := true;
      if exceptionPtr.None? {
        exceptionPtr := Some(t);
      }
    }
  }
}
