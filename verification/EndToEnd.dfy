/** Where the parts meet: the pipeline's runs, admission and the outbox drain. */
module EndToEnd {
  import opened Events
  import opened Outboxes
  import Admission
  import Delivery
  import DeliveryLaws
  import Pipeline
  import PipelineAccounts

  lemma {:induction false} AdmittedHasId(rules: Admission.Rules, e: Event)
    requires Admission.Trims(rules) && Admission.ValidateEvent(rules, e).None?
    ensures e.eventId != []
  {
    Admission.ValidatedEnvelope(rules, e);
  }

  /**
    * Draining the outbox terminates in every state the pipeline can reach. Because only validated events are
    * appended and validation demands an ID, no record is ever one that removal cannot name; so from any
    * reachable state, if the file began without such records, the drain ends after at most the retries of one
    * batch for each record and for each access of the disk that fails.
    */
  lemma {:induction false} ReachableOutboxDrains(
    rules: Admission.Rules, c: Pipeline.Config, init: Pipeline.State, steps: seq<Pipeline.Step>,
    config: Delivery.Config, w: Delivery.World)
    requires Admission.Trims(rules)
    requires forall e :: c.admits(e) ==> Admission.ValidateEvent(rules, e).None?
    requires Pipeline.Init(c, init) && Pipeline.CanRun(c, init, steps)
    requires [] !in StoredIds(init.outbox)
    requires Delivery.Backlog(w) == Pipeline.After(c, init, steps).outbox
    requires |w.replies| >= DeliveryLaws.Rounds(w) * (config.retryAttempts + 1)
    ensures !Delivery.DrainOutbox(config, w).1.Cut?
  {
    forall e | c.admits(e)
      ensures e.eventId != []
    {
      AdmittedHasId(rules, e);
    }
    PipelineAccounts.RecordsKeepIds(c, init, steps);
    DeliveryLaws.OutboxDrainEnds(config, w);
  }
}
