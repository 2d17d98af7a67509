/** A whole transfer: the plan made by the sender, the session that hands it over, and the pipeline that follows it. */
module Transfer {
  import opened Bytes
  import opened TransferRequests
  import opened Packing
  import opened EncryptionManager
  import opened Threads
  import Session
  import Pipeline
  import Safety
  import Outcomes

  /** The selected files have the sizes that the request lists. */
  predicate SizesMatch(infos: seq<FileInfo>, files: seq<seq<byte>>) {
    |infos| == |files| && forall i :: 0 <= i < |files| ==> infos[i].size == |files[i]|
  }

  lemma {:induction false} SizesAddUp(infos: seq<FileInfo>, files: seq<seq<byte>>)
    requires SizesMatch(infos, files)
    ensures |Flatten(files)| == TotalSize(infos)
    decreases |files|
  {
    if |files| > 0 {
      SizesAddUp(infos[..|files| - 1], files[..|files| - 1]);
    }
  }

  /** The secret stream adds 17 bytes to each planned chunk. */
  predicate CiphertextsFit(r: Request, ciphertexts: seq<seq<byte>>) {
    && |ciphertexts| == r.numChunks
    && forall k :: 0 <= k < |ciphertexts| ==> |ciphertexts[k]| == Capacity(r, k) + ENCRYPTION_ADDITIONAL_BYTES
  }

  /** A request planned for files that fit is one that the pipeline can follow. */
  lemma PlanIsValid(infos: seq<FileInfo>, files: seq<seq<byte>>, sealing: SecretStream, opening: SecretStream,
                    ciphertexts: seq<seq<byte>>, sendLimit: nat, receiveLimit: nat, wireLimit: nat)
    requires SizesMatch(infos, files) && 1 <= TotalSize(infos) <= MAX_TRANSFER
    requires CiphertextsFit(PlanFor(infos), ciphertexts) && sendLimit >= 1 && receiveLimit >= 1 && wireLimit >= 1
    ensures Pipeline.ValidConfig(Pipeline.Config(PlanFor(infos), files, sealing, opening, ciphertexts, sendLimit,
                                                 receiveLimit, wireLimit))
  {
    hide Flatten, TotalSize;
    SizesAddUp(infos, files);
    PlanCoversIffItFits(infos);
    hide Planned, Capacity;
    var cfg := Pipeline.Config(PlanFor(infos), files, sealing, opening, ciphertexts, sendLimit, receiveLimit,
                               wireLimit);
    forall k | 0 <= k < cfg.request.numChunks ensures Pipeline.CiphertextFits(cfg, k) {
      assert |ciphertexts[k]| == Capacity(cfg.request, k) + ENCRYPTION_ADDITIONAL_BYTES;
    }
  }

  /** The two pipelines of an agreed session: the receiver's uses the request, key and header that it received. */
  function PipelineOf(session: Session.Config, agreed: Session.State, files: seq<seq<byte>>,
                      ciphertexts: seq<seq<byte>>, sendLimit: nat, receiveLimit: nat, wireLimit: nat): Pipeline.Config
    requires agreed.receiver.ReceiveFiles?
  {
    Pipeline.Config(agreed.receiver.request, files, Session.SenderStream(session), agreed.receiver.decryptor,
                    ciphertexts, sendLimit, receiveLimit, wireLimit)
  }

  lemma PlanAnnouncesAll(infos: seq<FileInfo>)
    requires |infos| < 0x1_0000_0000 && 1 <= TotalSize(infos) <= MAX_TRANSFER
    ensures PlanFor(infos).numFiles == |infos| && PlanFor(infos).files == infos
  {
    PlanLists(infos);
    hide PlanFor, TotalSize;
  }

  /** From passwords to files. Once the sender of a planned request starts on the files, the receiver follows the
      same plan with the same secret stream. In any run of the two pipelines that then start, what is on the
      receiver's disk is never anything but a beginning of the sender's files, and all of them once its writer has
      returned and its side saw no failure; and some run ends that way. */
  lemma WholeTransfer(session: Session.Config, agreed: Session.State, infos: seq<FileInfo>, files: seq<seq<byte>>,
                      ciphertexts: seq<seq<byte>>, sendLimit: nat, receiveLimit: nat, wireLimit: nat)
    requires Session.WellFormed(session) && Session.Reachable(session, agreed) && agreed.sender.SendFiles?
    requires |infos| < 0x1_0000_0000 && 1 <= TotalSize(infos) <= MAX_TRANSFER && session.request == Ok(PlanFor(infos))
    requires SizesMatch(infos, files) && CiphertextsFit(PlanFor(infos), ciphertexts)
    requires sendLimit >= 1 && receiveLimit >= 1 && wireLimit >= 1
    ensures agreed.receiver.ReceiveFiles?
    ensures agreed.receiver.request.numFiles == |files| && agreed.receiver.request.files == infos
    ensures var cfg := PipelineOf(session, agreed, files, ciphertexts, sendLimit, receiveLimit, wireLimit);
            && Pipeline.ValidConfig(cfg) && Pipeline.SameStream(cfg)
            && (forall s :: Safety.Reachable(cfg, s) ==> OnlyBeginnings(files, s) && CompleteIfReturned(files, s))
            && (exists s :: Safety.Reachable(cfg, s) && s.writer.life == Exited(true) && s.writer.locals.out == files)
  {
    PlanAnnouncesAll(infos);
    Session.FilesStartTogether(session, agreed);
    hide PlanFor, Session.Reachable, Session.ValidConfig, TotalSize, CiphertextsFit;
    var cfg := PipelineOf(session, agreed, files, ciphertexts, sendLimit, receiveLimit, wireLimit);
    PlanIsValid(infos, files, cfg.sealing, cfg.opening, ciphertexts, sendLimit, receiveLimit, wireLimit);
    hide Pipeline.ValidConfig, Safety.Reachable;
    forall s | Safety.Reachable(cfg, s) ensures OnlyBeginnings(files, s) && CompleteIfReturned(files, s) {
      Safety.FilesAlwaysSafe(cfg, s);
      if s.writer.life == Exited(true) && !s.receiveContext.abort {
        Safety.WriterReturnsComplete(cfg, s);
      }
    }
    var stuck, complete := Outcomes.BothOutcomes(cfg);
    assert OnlyBeginnings(files, complete) && CompleteIfReturned(files, complete);
  }

  predicate OnlyBeginnings(files: seq<seq<byte>>, s: Pipeline.State) {
    var out := s.writer.locals.out;
    |out| <= |files| && forall i :: 0 <= i < |out| ==> out[i] <= files[i]
  }

  predicate CompleteIfReturned(files: seq<seq<byte>>, s: Pipeline.State) {
    s.writer.life == Exited(true) && !s.receiveContext.abort ==> s.writer.locals.out == files
  }
}
