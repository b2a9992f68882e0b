/** What a billing webhook leaves in the workspaces and in the usage table. */
module UsageWebhooks {
  import opened Options
  import opened UsageTable
  import opened UsageMachine

  /** A handler with this body is at its first statement. */
  predicate Ready(s: State, j: nat, b: Body) {
    j < |s.tasks| && s.tasks[j] == Task(b, Updating)
  }

  /** The workspace is the one that carries a given, nonempty subscription id. */
  predicate Owns(b: Billing, sub: Option<string>) {
    b.subscription.Some? && b.subscription == sub && sub.value != ""
  }

  /** Everything but the terms of the subscription's workspaces stays: other workspaces whole, and ids everywhere. */
  ghost predicate OnlyTermsOf(s: State, s': State, sub: Option<string>) {
    s'.workspaces.Keys == s.workspaces.Keys && s'.table == s.table && s'.batches == s.batches &&
    forall w :: w in s.workspaces ==>
                  s'.workspaces[w].customer == s.workspaces[w].customer && s'.workspaces[w].subscription == s.workspaces[w].subscription
                  && (!Owns(s.workspaces[w], sub) ==> s'.workspaces[w] == s.workspaces[w])
  }

  /** After a cancellation every workspace of the subscription is on the free plan and canceled, its other terms kept. */
  lemma CancelFrees(s: State, j: nat, sub: Option<string>, pick: string, w: string)
    requires Ready(s, j, Canceled(sub)) && w in s.workspaces && Owns(s.workspaces[w], sub)
    ensures var s' := HandleStep(s, j, pick);
            var t, t' := s.workspaces[w].terms, s'.workspaces[w].terms;
            OnlyTermsOf(s, s', sub) && t'.plan == "free" && t'.status == "canceled" && t'.trialEnd == t.trialEnd &&
            t'.periodEnd == t.periodEnd && t'.cancelAtPeriodEnd == t.cancelAtPeriodEnd && t'.priceCents == t.priceCents &&
            t'.currency == t.currency && s'.tasks[j].stage == Closed
  {
  }

  /** A failed payment makes the subscription past due and changes nothing else, the plan included. */
  lemma FailedPaymentIsPastDue(s: State, j: nat, sub: Option<string>, pick: string, w: string)
    requires Ready(s, j, PaymentFailed(sub)) && w in s.workspaces && Owns(s.workspaces[w], sub)
    ensures var s' := HandleStep(s, j, pick);
            var t, t' := s.workspaces[w].terms, s'.workspaces[w].terms;
            OnlyTermsOf(s, s', sub) && t'.status == "past_due" && t'.plan == t.plan && t'.trialEnd == t.trialEnd &&
            t'.periodEnd == t.periodEnd && t'.cancelAtPeriodEnd == t.cancelAtPeriodEnd && t'.priceCents == t.priceCents &&
            t'.currency == t.currency && s'.tasks[j].stage == Closed
  {
  }

  /** An update gives every workspace of the subscription the event's terms; without a subscription id it touches none. */
  lemma UpdateSetsTerms(s: State, j: nat, sub: Option<string>, terms: Terms, start: Option<int>, pick: string, w: string)
    requires Ready(s, j, Updated(sub, terms, start)) && w in s.workspaces
    ensures var s' := HandleStep(s, j, pick);
            OnlyTermsOf(s, s', sub) && (Owns(s.workspaces[w], sub) ==> s'.workspaces[w].terms == terms) &&
            s'.tasks[j].stage == if start.Some? && terms.periodEnd.Some? then Locating else Closed
  {
  }

  /** An activation gives the named workspace its ids and terms and leaves every other workspace alone. */
  lemma ActivationSetsBilling(s: State, j: nat, w: string, customer: Option<string>, sub: Option<string>, terms: Terms,
                              start: Option<int>, pick: string, other: string)
    requires Ready(s, j, Activated(Some(w), customer, sub, terms, start)) && w in s.workspaces && w != ""
    ensures var s' := HandleStep(s, j, pick);
            s'.workspaces[w] == Billing(customer, sub, terms) && s'.workspaces.Keys == s.workspaces.Keys && s'.table == s.table &&
            (other in s.workspaces && other != w ==> s'.workspaces[other] == s.workspaces[other]) &&
            s'.tasks[j].stage == if start.Some? && terms.periodEnd.Some? then Seeding(w) else Closed
  {
  }

  /** An activation without a workspace id changes no workspace and seeds nothing. */
  lemma UnnamedActivationIsIgnored(s: State, j: nat, w: Option<string>, customer: Option<string>, sub: Option<string>,
                                   terms: Terms, start: Option<int>, pick: string)
    requires Ready(s, j, Activated(w, customer, sub, terms, start)) && (w == None || w == Some(""))
    ensures var s' := HandleStep(s, j, pick);
            s'.workspaces == s.workspaces && s'.table == s.table && s'.tasks[j].stage == Closed
  {
  }

  /** An update then looks for the workspace of its subscription: it can only settle on one that carries the id, and gives
      up only when there is none. */
  lemma LocatingFindsOwner(s: State, j: nat, sub: Option<string>, terms: Terms, start: Option<int>, pick: string)
    requires j < |s.tasks| && s.tasks[j] == Task(Updated(sub, terms, start), Locating)
    ensures var s' := HandleStep(s, j, pick);
            s'.workspaces == s.workspaces && s'.table == s.table &&
            (s'.tasks[j].stage.Seeding? ==>
               var w := s'.tasks[j].stage.workspace; w in s.workspaces && Owns(s.workspaces[w], sub)) &&
            (pick in s.workspaces && Owns(s.workspaces[pick], sub) ==> s'.tasks[j].stage == Seeding(pick)) &&
            (s'.tasks[j].stage == Closed ==> forall w :: w in s.workspaces ==> !Owns(s.workspaces[w], sub))
  {
  }

  /** The seed of either handler: a zero row for the workspace's new period, unless that period already has one. */
  lemma SeedingSeedsThePeriod(s: State, j: nat, w: string, body: Body, pick: string, k: CycleKey)
    requires j < |s.tasks| && s.tasks[j] == Task(body, Seeding(w)) && w in s.workspaces
    requires (body.Activated? || body.Updated?) && body.periodStart.Some? && body.terms.periodEnd.Some?
    ensures var s' := HandleStep(s, j, pick);
            var seeded := CycleKey(w, body.periodStart.value);
            s'.workspaces == s.workspaces && s'.table.Keys == s.table.Keys + {seeded} &&
            s'.table[seeded] == (if seeded in s.table then s.table[seeded] else Row(body.terms.periodEnd.value, 0, 0, 0, false, false)) &&
            (k in s.table ==> s'.table[k] == s.table[k]) && s'.tasks[j].stage == Closed
  {
  }

  /** A delivered event starts one handler if its id is new, and nothing otherwise. */
  lemma DeliveryStartsOneHandler(s: State, e: Event)
    ensures var s' := DeliverStep(s, e);
            (e.id.Some? && e.id.value !in s.events ==>
               s'.tasks == s.tasks + [Task(e.body, Updating)] && s'.events == s.events + {e.id.value}) &&
            (e.id.None? || e.id.value in s.events ==> s' == s) && s'.workspaces == s.workspaces && s'.table == s.table
  {
  }
}
