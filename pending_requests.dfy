// The two queues of pop requests waiting for a worker (requests waiting for an
// already launched process to register, and requests waiting for a startup slot),
// and what happens when a freshly started or returned worker is offered to them.
module PendingRequests {
  import opened Wrappers
  import opened WorkerTypes

  /// The pop requests of a pending registration queue, in queue order.
  function Requests(regs: seq<PendingRegistration>): (rs: seq<PopRequest>)
    ensures |rs| == |regs|
    ensures forall i :: 0 <= i < |regs| ==> rs[i] == regs[i].request
  {
    if regs == [] then [] else [regs[0].request] + Requests(regs[1..])
  }

  /// Index of the oldest request at or after `from` that the worker fits.
  function FirstFitFrom(rs: seq<PopRequest>, w: Worker, from: nat): (k: Option<nat>)
    ensures k.Some? ==> from <= k.value < |rs| && Fits(w, rs[k.value])
    ensures k.Some? ==> forall j :: from <= j < k.value ==> !Fits(w, rs[j])
    ensures k.None? ==> forall j :: from <= j < |rs| ==> !Fits(w, rs[j])
    decreases |rs| - from
  {
    if from >= |rs| then None
    else if Fits(w, rs[from]) then Some(from)
    else FirstFitFrom(rs, w, from + 1)
  }

  /// Index of the oldest request the worker fits.
  function FirstFit(rs: seq<PopRequest>, w: Worker): (k: Option<nat>)
    ensures k.Some? ==> k.value < |rs| && Fits(w, rs[k.value])
    ensures k.Some? ==> forall j :: 0 <= j < k.value ==> !Fits(w, rs[j])
    ensures k.None? ==> forall j :: 0 <= j < |rs| ==> !Fits(w, rs[j])
  {
    FirstFitFrom(rs, w, 0)
  }

  /// The queue without its i-th element; the others keep their order.
  function RemoveAt<T>(s: seq<T>, i: nat): (r: seq<T>)
    requires i < |s|
    ensures |r| == |s| - 1
    ensures forall j :: 0 <= j < i ==> r[j] == s[j]
    ensures forall j :: i <= j < |r| ==> r[j] == s[j + 1]
  {
    s[..i] + s[i + 1..]
  }

  /// Removing an element loses exactly that element.
  lemma RemoveAtMultiset<T>(s: seq<T>, i: nat)
    requires i < |s|
    ensures multiset(RemoveAt(s, i)) + multiset{s[i]} == multiset(s)
  {
    assert s == s[..i] + [s[i]] + s[i + 1..];
  }

  /// The callbacks a worker offer fired, the queues it left, and whether a request
  /// kept the worker.
  datatype OfferResult = OfferResult(
    outcomes: seq<PopOutcome>,
    regs: seq<PendingRegistration>,
    starts: seq<PopRequest>,
    taken: bool)

  /// The outcome a request receives when it is handed the worker or, when the
  /// worker's job has finished, the job-finished failure.
  function Handed(r: PopRequest, w: Worker, jobFinished: bool): (o: PopOutcome)
    ensures o.request == r
    ensures jobFinished ==> o.worker.None? && o.status == JobFinished
    ensures !jobFinished ==> o.worker == Some(w) && o.status == OK
  {
    if jobFinished then PopOutcome(r, None, JobFinished, "")
    else PopOutcome(r, Some(w), OK, "")
  }

  /// The request an offer serves next, and the queues without it.
  datatype Pick = Pick(request: PopRequest, regs: seq<PendingRegistration>, starts: seq<PopRequest>)

  /// The oldest pending registration request worker w fits or, when there is none,
  /// the oldest pending start request it fits.
  function NextFit(w: Worker, regs: seq<PendingRegistration>, starts: seq<PopRequest>): (p: Option<Pick>)
    ensures p.Some? ==> Fits(w, p.value.request)
    ensures p.Some? ==> |p.value.regs| + |p.value.starts| + 1 == |regs| + |starts|
  {
    var kr := FirstFit(Requests(regs), w);
    if kr.Some? then Some(Pick(regs[kr.value].request, RemoveAt(regs, kr.value), starts))
    else
      var ks := FirstFit(starts, w);
      if ks.Some? then Some(Pick(starts[ks.value], regs, RemoveAt(starts, ks.value)))
      else None
  }

  /// Every outcome went to a request the worker fits, with the status Handed gives.
  predicate Served(w: Worker, jobFinished: bool, outs: seq<PopOutcome>)
  {
    forall i :: 0 <= i < |outs| ==>
      Fits(w, outs[i].request) && outs[i] == Handed(outs[i].request, w, jobFinished)
  }

  lemma ServedPrepend(w: Worker, jobFinished: bool, o: PopOutcome, outs: seq<PopOutcome>)
    requires Fits(w, o.request) && o == Handed(o.request, w, jobFinished)
    requires Served(w, jobFinished, outs)
    ensures Served(w, jobFinished, [o] + outs)
  {
    forall i | 0 <= i < |[o] + outs|
      ensures Fits(w, ([o] + outs)[i].request) && ([o] + outs)[i] == Handed(([o] + outs)[i].request, w, jobFinished)
    {
      if i > 0 { assert ([o] + outs)[i] == outs[i - 1]; }
    }
  }

  /// Every request served before the last one declined the worker.
  predicate DeclinedBeforeLast(outs: seq<PopOutcome>)
  {
    forall i :: 0 <= i < |outs| - 1 ==> !outs[i].request.accepts
  }

  lemma DeclinedPrepend(o: PopOutcome, outs: seq<PopOutcome>)
    ensures !o.request.accepts && DeclinedBeforeLast(outs) ==> DeclinedBeforeLast([o] + outs)
  {
    if !o.request.accepts && DeclinedBeforeLast(outs) {
      forall i | 0 <= i < |[o] + outs| - 1
      ensures !([o] + outs)[i].request.accepts
    {
        if i > 0 { assert ([o] + outs)[i] == outs[i - 1]; }
      }
    }
  }

  lemma LastOfPrepend(o: PopOutcome, outs: seq<PopOutcome>)
    ensures |[o] + outs| == |outs| + 1
    ensures |outs| > 0 ==> ([o] + outs)[|outs|] == outs[|outs| - 1]
  {
  }

  /// NextFit finds nothing exactly when the worker fits no queued request.
  lemma NextFitNone(w: Worker, regs: seq<PendingRegistration>, starts: seq<PopRequest>)
    ensures NextFit(w, regs, starts).None? <==> FirstFit(Requests(regs), w).None? && FirstFit(starts, w).None?
  {
  }

  /// Offers worker w to the pending requests: the oldest pending registration
  /// request it fits is served first, and only when none fits the oldest fitting
  /// pending start request. A served request is removed from its queue. A request
  /// that declines the worker lets the offer go on to the next fitting request; a
  /// request that keeps it ends the offer. When the worker's job has finished every
  /// fitting request is failed with the job-finished status and nobody keeps it.
  function Offer(w: Worker, jobFinished: bool, regs: seq<PendingRegistration>, starts: seq<PopRequest>)
    : (res: OfferResult)
    // every request is either still queued or has received exactly one outcome
    ensures |res.outcomes| + |res.regs| + |res.starts| == |regs| + |starts|
    // only requests the worker fits are served, each with the status Handed gives
    ensures Served(w, jobFinished, res.outcomes)
    // the worker is kept exactly when the last served request accepted it; every
    // request served before that one declined it
    ensures res.taken <==> !jobFinished && |res.outcomes| > 0 && res.outcomes[|res.outcomes| - 1].request.accepts
    ensures !jobFinished ==> DeclinedBeforeLast(res.outcomes)
    decreases |regs| + |starts|
  {
    match NextFit(w, regs, starts)
    case None => OfferResult([], regs, starts, false)
    case Some(p) =>
      var h := Handed(p.request, w, jobFinished);
      if !jobFinished && p.request.accepts then OfferResult([h], p.regs, p.starts, true)
      else
        var rest := Offer(w, jobFinished, p.regs, p.starts);
        ServedPrepend(w, jobFinished, h, rest.outcomes);
        DeclinedPrepend(h, rest.outcomes);
        LastOfPrepend(h, rest.outcomes);
        rest.(outcomes := [h] + rest.outcomes)
  }

  /// NextFit picks the oldest fitting registration request, else the oldest fitting
  /// pending start request.
  lemma NextFitOrder(w: Worker, regs: seq<PendingRegistration>, starts: seq<PopRequest>)
    ensures FirstFit(Requests(regs), w).Some? ==>
              NextFit(w, regs, starts).Some? &&
              NextFit(w, regs, starts).value.request == regs[FirstFit(Requests(regs), w).value].request
    ensures FirstFit(Requests(regs), w).None? && FirstFit(starts, w).Some? ==>
              NextFit(w, regs, starts).Some? &&
              NextFit(w, regs, starts).value.request == starts[FirstFit(starts, w).value]
  {
  }

  /// Registrations are served before pending starts, each queue oldest first.
  lemma OfferOrder(w: Worker, jobFinished: bool, regs: seq<PendingRegistration>, starts: seq<PopRequest>)
    ensures var res := Offer(w, jobFinished, regs, starts);
            FirstFit(Requests(regs), w).Some? ==>
              |res.outcomes| > 0 && res.outcomes[0].request == regs[FirstFit(Requests(regs), w).value].request
    ensures var res := Offer(w, jobFinished, regs, starts);
            FirstFit(Requests(regs), w).None? && FirstFit(starts, w).Some? ==>
              |res.outcomes| > 0 && res.outcomes[0].request == starts[FirstFit(starts, w).value]
  {
    NextFitOrder(w, regs, starts);
    var p := NextFit(w, regs, starts);
    if p.Some? {
      assert Offer(w, jobFinished, regs, starts).outcomes[0].request == p.value.request;
    }
  }

  /// An offer nobody kept has served every request the worker fits.
  lemma {:induction false} OfferExhausts(w: Worker, jobFinished: bool, regs: seq<PendingRegistration>, starts: seq<PopRequest>)
    ensures var res := Offer(w, jobFinished, regs, starts);
            !res.taken ==> FirstFit(Requests(res.regs), w).None? && FirstFit(res.starts, w).None?
    decreases |regs| + |starts|
  {
    var p := NextFit(w, regs, starts);
    NextFitNone(w, regs, starts);
    if p.Some? && !(!jobFinished && p.value.request.accepts) {
      OfferExhausts(w, jobFinished, p.value.regs, p.value.starts);
    }
  }

  /// The request an offer serves is taken out of exactly one queue.
  lemma NextFitSubQueues(w: Worker, regs: seq<PendingRegistration>, starts: seq<PopRequest>)
    ensures var p := NextFit(w, regs, starts);
            p.Some? ==> multiset(p.value.regs) <= multiset(regs) && multiset(p.value.starts) <= multiset(starts)
  {
    var kr := FirstFit(Requests(regs), w);
    if kr.Some? {
      RemoveAtMultiset(regs, kr.value);
    } else {
      var ks := FirstFit(starts, w);
      if ks.Some? {
        RemoveAtMultiset(starts, ks.value);
      }
    }
  }

  /// An offer only takes requests out of the queues: what is left is a sub-multiset
  /// of each queue.
  lemma {:induction false} OfferSubQueues(w: Worker, jobFinished: bool, regs: seq<PendingRegistration>, starts: seq<PopRequest>)
    ensures var res := Offer(w, jobFinished, regs, starts);
            multiset(res.regs) <= multiset(regs) && multiset(res.starts) <= multiset(starts)
    decreases |regs| + |starts|
  {
    var p := NextFit(w, regs, starts);
    NextFitSubQueues(w, regs, starts);
    if p.Some? && !(!jobFinished && p.value.request.accepts) {
      OfferSubQueues(w, jobFinished, p.value.regs, p.value.starts);
    }
  }

  // ---------------------------------------------------------------------------
  // The queues of each language

  /// One value per worker language: the pool keeps both queues for each language
  /// apart.
  datatype ByLanguage<T> = ByLanguage(python: T, java: T)
  {
    function Of(l: Language): T
    {
      match l
      case Python => python
      case Java => java
    }

    /// The same values, with the one for language l replaced.
    function With(l: Language, v: T): (r: ByLanguage<T>)
      ensures r.Of(l) == v
      ensures forall m :: m != l ==> r.Of(m) == Of(m)
    {
      match l
      case Python => this.(python := v)
      case Java => this.(java := v)
    }
  }

  /// Every request in the two queues of language l is of that language.
  predicate QueuedAs(l: Language, starts: seq<PopRequest>, regs: seq<PendingRegistration>)
  {
    && (forall i :: 0 <= i < |starts| ==> starts[i].language == l)
    && (forall i :: 0 <= i < |regs| ==> regs[i].request.language == l)
  }

  /// Each language's queues hold only requests of that language.
  predicate ByOwnLanguage(starts: ByLanguage<seq<PopRequest>>, regs: ByLanguage<seq<PendingRegistration>>)
  {
    QueuedAs(Python, starts.Of(Python), regs.Of(Python)) && QueuedAs(Java, starts.Of(Java), regs.Of(Java))
  }

  /// The queues of language l are of that language.
  lemma QueuedOf(starts: ByLanguage<seq<PopRequest>>, regs: ByLanguage<seq<PendingRegistration>>, l: Language)
    requires ByOwnLanguage(starts, regs)
    ensures QueuedAs(l, starts.Of(l), regs.Of(l))
  {
  }

  /// Replacing the queues of one language by queues of that language keeps every
  /// queue to its own language.
  lemma ByOwnLanguageWith(starts: ByLanguage<seq<PopRequest>>, regs: ByLanguage<seq<PendingRegistration>>,
                          l: Language, s: seq<PopRequest>, g: seq<PendingRegistration>)
    requires ByOwnLanguage(starts, regs) && QueuedAs(l, s, g)
    ensures ByOwnLanguage(starts.With(l, s), regs.With(l, g))
  {
  }

  /// What an offer leaves in the queues of a language is still of that language.
  lemma OfferKeepsLanguage(w: Worker, jobFinished: bool, regs: seq<PendingRegistration>, starts: seq<PopRequest>,
                           l: Language)
    requires QueuedAs(l, starts, regs)
    ensures var res := Offer(w, jobFinished, regs, starts);
            QueuedAs(l, res.starts, res.regs)
  {
    var res := Offer(w, jobFinished, regs, starts);
    OfferSubQueues(w, jobFinished, regs, starts);
    forall i | 0 <= i < |res.starts| ensures res.starts[i].language == l {
      assert res.starts[i] in multiset(starts);
    }
    forall i | 0 <= i < |res.regs| ensures res.regs[i].request.language == l {
      assert res.regs[i] in multiset(regs);
    }
  }
}
