/** What a block's thread does with the state that an iteration returns. */
module ThreadBody {
  import opened Rounding
  import opened Executor

  /** Whom it tells, and whether it goes on; or what it waits for; or an exception. */
  datatype After = Tell(down: bool, up: bool, again: bool) | AwaitInput | AwaitOutput | Thrown

  function Switch(s: State): After {
    match s
    case READY => Tell(true, true, true)               // notify_neighbors
    case READY_NO_OUTPUT => Tell(false, true, true)    // notify_upstream
    case DONE => Tell(true, true, false)
    case BLKD_IN => AwaitInput
    case BLKD_OUT => AwaitOutput
    case THROWN => Thrown
  }

  /** One round of the thread's loop, up to telling the neighbours or waiting. Readers are told exactly
      if something was produced or the block has ended; the writer is told whenever the block was
      called; and the thread waits for what the block is short of. */
  method Round(exec: BlockExecutor, ins: seq<Input>, outs: seq<Output>, work: int -> Work) returns (a: After)
    requires exec.Valid() && !exec.done && (ins != [] || outs != []) && forall o :: o in outs ==> o.bufsize <= INT_MAX
    modifies exec
    ensures exec.Valid()
    ensures var d := Decide(exec.b, old(exec.Al()), ins, outs);
      match d
      case Run(asked) =>
        (match work(asked.items)
         case WorkDone => a == Tell(true, true, false) && exec.done
         case CalledProduce(some) => a == Tell(some, true, true) && !exec.done
         case Produced(n) => a == Tell(n > 0, true, true) && !exec.done)
      case Finished => a == Tell(true, true, false) && exec.done
      case Starved(_) => a == AwaitInput && !exec.done
      case Jammed => a == AwaitOutput && !exec.done
      case Unfit => a == Thrown && !exec.done
  {
    var s := exec.RunOneIteration(ins, outs, work);
    a := Switch(s);
  }
}
