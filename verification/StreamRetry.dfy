/** The retry rule of the turn loop over streams that break off. */
module StreamRetry {
  import opened StreamProgress
  import opened SseParser
  import TurnRuns
  import TurnState

  /**
   * A request whose stream broke off after some text is sent again unchanged, although a useful event had arrived,
   * exactly when that event was the first useful one and its group was still open.
   */
  lemma UnsafeRetryIff(cfg: TurnState.Config, s: TurnState.Turn, p: PayloadType, reading: Reading, text: string,
                       f: TurnState.Reply)
    requires f.Failure? && TurnState.ValidReply(f) && f.deltas == AnyUseful(reading, EventsSoFar(p, text))
    ensures TurnState.Step(cfg, s, f).Continue?
            && TurnState.RequestOf(TurnState.Step(cfg, s, f).turn) == TurnState.RequestOf(s)
            && AnyUseful(reading, ReadText(p, text))
            <==> f.transient && s.transientRetries < cfg.maxTransientRetries && UsefulUnseen(p, reading, text)
  {
    TurnRuns.IdenticalRetryIff(cfg, s, f);
    UnseenIff(p, reading, text);
  }
}
