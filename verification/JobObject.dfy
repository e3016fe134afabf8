/** The job as the object of queue/job.go: Execute is the section held under executeMutex. */
module JobObject {
  import opened Options
  import opened JobProtocol

  class Job {
    const message: Message
    var state: JobState

    // calls made into other components
    ghost var deletes: nat
    ghost var handles: nat

    constructor (message: Message)
      ensures this.message == message && state == JobInitial && deletes == 0 && handles == 0
    {
      this.message := message;
      state := JobInitial;
      deletes, handles := 0, 0;
    }

    /**
     The answers of DeleteMessage, of Handle and of a sender quick enough to matter are given. A job runs once;
     it is handled exactly if the deletion succeeds and one of the two attributes names the owner, and finished
     exactly if besides there is no error when err is read, which is the sender's if that was there first.
     */
    method Execute(answers: Answers) returns (ret: Return)
      modifies this
      ensures old(state) != JobInitial ==> ret == AlreadyRun && state == old(state)
      ensures old(state) != JobInitial ==> deletes == old(deletes) && handles == old(handles)
      ensures old(state) == JobInitial ==> state == FinalState(message, answers) && ret == FinalReturn(message, answers)
      ensures old(state) == JobInitial ==> deletes == old(deletes) + 1
      ensures old(state) == JobInitial ==> handles == old(handles) || handles == old(handles) + 1
      ensures old(state) == JobInitial ==>
                (handles == old(handles) + 1 <==>
                   answers.deleteOk && message.attributes.Some?
                   && (message.attributes.value.owner == message.ownerId || message.attributes.value.channel == message.ownerId))
      ensures old(state) == JobInitial ==>
                (state == JobFinished <==>
                   handles == old(handles) + 1
                   && !(answers.early == Some(true) || (answers.early == None && answers.handleFailed)))
      ensures old(state) == JobInitial && state != JobFinished ==> state == JobError
      ensures old(state) == JobInitial ==> (ret == Ok <==> state == JobFinished)
      ensures old(state) == JobInitial ==> (ret == DeleteFailed <==> !answers.deleteOk)
      ensures old(state) == JobInitial ==> (ret == Invalid <==> answers.deleteOk && handles == old(handles))
      ensures old(state) == JobInitial ==> ret != AlreadyRun
      ensures IsTerminal(old(state)) || old(state) == JobInitial ==> IsTerminal(state)
    {
      if state != JobInitial {
        return AlreadyRun;
      }
      state := JobExecuting;

      deletes := deletes + 1;
      var failed := !answers.deleteOk;
      if failed {
        state := JobError;
        return DeleteFailed;
      }

      if message.attributes == None
         || (message.attributes.value.owner != message.ownerId && message.attributes.value.channel != message.ownerId) {
        state := JobError;
        return Invalid;
      }

      handles := handles + 1;
      failed := answers.handleFailed;
      if answers.early.Some? {
        failed := answers.early.value;
      }
      if failed {
        state := JobError;
        return ProcessFailed;
      }
      state := JobFinished;
      return Ok;
    }
  }
}
