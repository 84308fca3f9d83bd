/**
 The application pipeline that the portal handlers of src/routes/portal.ts drive: opening an application, accepting
 and rejecting its documents, uploading a term sheet, and the client's answer to an offer. Each handler is one step,
 on one application, in the caller's own silo, and its database calls succeed.
 */
module Pipeline {

  datatype Stage =
    | Received | InReview | DocumentsRequired | AdditionalStepsRequired | OffToLender | Offer | Accepted
    | OtherStage(name: string)

  datatype DocumentStatus = DocAccepted | DocRejected | DocOther(name: string)

  datatype Document = Document(id: nat, status: DocumentStatus)

  datatype OfferStatus = Pending | Created | Sent | OfferAccepted | ChangesRequested | OtherStatus(name: string)

  datatype OfferRow = OfferRow(id: nat, status: OfferStatus, archived: bool)

  /** A row of `application_stage_events`. */
  datatype StageEvent = StageEvent(origin: Stage, target: Stage)

  datatype App = App(stage: Stage, docs: seq<Document>, offers: seq<OfferRow>, events: seq<StageEvent>)

  // ---- Rows ----

  predicate HasDocument(docs: seq<Document>, id: nat) {
    exists i :: 0 <= i < |docs| && docs[i].id == id
  }

  /** `UPDATE documents SET status = … WHERE id = …` */
  function SetStatus(docs: seq<Document>, id: nat, status: DocumentStatus): (r: seq<Document>)
    ensures |r| == |docs|
    ensures forall i :: 0 <= i < |r| ==> r[i] == if docs[i].id == id then Document(id, status) else docs[i]
  {
    seq(|docs|, i requires 0 <= i < |docs| => if docs[i].id == id then Document(id, status) else docs[i])
  }

  function CountNotRejected(docs: seq<Document>): nat {
    if docs == [] then 0 else (if docs[0].status.DocRejected? then 0 else 1) + CountNotRejected(docs[1..])
  }

  function CountAccepted(docs: seq<Document>): nat {
    if docs == [] then 0 else (if docs[0].status.DocAccepted? then 1 else 0) + CountAccepted(docs[1..])
  }

  /** The two counts of `allDocumentsAccepted`. */
  predicate AllDocumentsAccepted(docs: seq<Document>) {
    CountNotRejected(docs) > 0 && CountNotRejected(docs) == CountAccepted(docs)
  }

  lemma {:induction false} CountsMean(docs: seq<Document>)
    ensures CountAccepted(docs) <= CountNotRejected(docs)
    ensures CountNotRejected(docs) > 0 <==> exists d :: d in docs && !d.status.DocRejected?
    ensures CountNotRejected(docs) == CountAccepted(docs) <==>
            forall d :: d in docs ==> d.status.DocRejected? || d.status.DocAccepted?
  {
    if docs != [] {
      CountsMean(docs[1..]);
      assert forall d :: d in docs <==> d == docs[0] || d in docs[1..];
    }
  }

  /** The counts agree exactly when some document is accepted and every other one is accepted or rejected. */
  lemma AllDocumentsAcceptedMeans(docs: seq<Document>)
    ensures AllDocumentsAccepted(docs) <==>
            && (exists d :: d in docs && d.status.DocAccepted?)
            && forall d :: d in docs ==> d.status.DocRejected? || d.status.DocAccepted?
  {
    CountsMean(docs);
  }

  predicate IsOpen(o: OfferRow) {
    !o.archived && (o.status.Pending? || o.status.Created? || o.status.Sent?)
  }

  predicate HasOpenOffer(offers: seq<OfferRow>, id: nat) {
    exists i :: 0 <= i < |offers| && offers[i].id == id && IsOpen(offers[i])
  }

  /** `UPDATE offers SET status = … WHERE id = … AND not archived AND status IN (…)` */
  function Answer(offers: seq<OfferRow>, id: nat, status: OfferStatus): (r: seq<OfferRow>)
    ensures |r| == |offers|
    ensures forall i :: 0 <= i < |r| ==>
              r[i] == if offers[i].id == id && IsOpen(offers[i]) then offers[i].(status := status) else offers[i]
  {
    seq(|offers|, i requires 0 <= i < |offers| =>
      if offers[i].id == id && IsOpen(offers[i]) then offers[i].(status := status) else offers[i])
  }

  function ArchiveAll(offers: seq<OfferRow>): (r: seq<OfferRow>)
    ensures |r| == |offers| && forall i :: 0 <= i < |r| ==> r[i] == offers[i].(archived := true)
  {
    seq(|offers|, i requires 0 <= i < |offers| => offers[i].(archived := true))
  }

  // ---- Steps ----

  datatype Op =
    | Open
    | AcceptDocument(id: nat)
    | RejectDocument(id: nat)
    | UploadTermSheet(offerId: nat)
    | ClientAccept(offerId: nat)
    | ClientDecline(offerId: nat)

  /** A stage change that is logged. */
  function Moved(app: App, target: Stage): App {
    app.(stage := target, events := app.events + [StageEvent(app.stage, target)])
  }

  function Apply(app: App, op: Op): App {
    match op
    case Open => if app.stage.Received? then Moved(app, InReview) else app
    case AcceptDocument(id) =>
      if !HasDocument(app.docs, id) then app
      else
        var a := app.(docs := SetStatus(app.docs, id, DocAccepted));
        if AllDocumentsAccepted(a.docs)
           && (a.stage.InReview? || a.stage.DocumentsRequired? || a.stage.AdditionalStepsRequired?)
        then Moved(a, OffToLender) else a
    case RejectDocument(id) =>
      if !HasDocument(app.docs, id) then app
      else
        var a := app.(docs := SetStatus(app.docs, id, DocRejected));
        if a.stage.InReview? || a.stage.OffToLender? || a.stage.Received? then Moved(a, DocumentsRequired) else a
    case UploadTermSheet(id) =>
      var a := app.(offers := ArchiveAll(app.offers) + [OfferRow(id, Pending, false)]);
      if a.stage.OffToLender? then Moved(a, Offer) else a
    case ClientAccept(id) =>
      if !HasOpenOffer(app.offers, id) then app
      else
        var a := app.(offers := Answer(app.offers, id, OfferAccepted));
        if a.stage.Offer? || a.stage.OffToLender? then a.(stage := Accepted) else a
    case ClientDecline(id) =>
      if !HasOpenOffer(app.offers, id) then app
      else app.(offers := Answer(app.offers, id, ChangesRequested))
  }

  /** The rows of one application and the handlers that read and update them. */
  class ApplicationRows {
    var stage: Stage
    var docs: seq<Document>
    var offers: seq<OfferRow>
    var events: seq<StageEvent>

    ghost function State(): App
      reads this
    {
      App(stage, docs, offers, events)
    }

    constructor (docs: seq<Document>)
      ensures State() == App(Received, docs, [], [])
    {
      this.stage, this.docs, this.offers, this.events := Received, docs, [], [];
    }

    method RecordTransition(origin: Stage, target: Stage)
      modifies this`events
      ensures events == old(events) + [StageEvent(origin, target)]
    {
      events := events + [StageEvent(origin, target)];
    }

    /** `GET /applications/:id` */
    method OpenDetail()
      modifies this
      ensures State() == Apply(old(State()), Op.Open)
    {
      if stage.Received? {
        stage := InReview;
        RecordTransition(Received, InReview);
      }
    }

    /** `POST /documents/:id/accept`; `found` is false for a 404. */
    method AcceptDocument(id: nat) returns (found: bool)
      modifies this
      ensures found == HasDocument(old(docs), id)
      ensures State() == Apply(old(State()), Op.AcceptDocument(id))
    {
      found := HasDocument(docs, id);
      if found {
        docs := SetStatus(docs, id, DocAccepted);
        if AllDocumentsAccepted(docs) {
          var cur := stage;
          if cur.InReview? || cur.DocumentsRequired? || cur.AdditionalStepsRequired? {
            stage := OffToLender;
            RecordTransition(cur, OffToLender);
          }
        }
      }
    }

    /** `POST /documents/:id/reject` */
    method RejectDocument(id: nat) returns (found: bool)
      modifies this
      ensures found == HasDocument(old(docs), id)
      ensures State() == Apply(old(State()), Op.RejectDocument(id))
    {
      found := HasDocument(docs, id);
      if found {
        docs := SetStatus(docs, id, DocRejected);
        var cur := stage;
        if cur.InReview? || cur.OffToLender? || cur.Received? {
          stage := DocumentsRequired;
          RecordTransition(cur, DocumentsRequired);
        }
      }
    }

    /** `POST /applications/:id/term-sheet` */
    method UploadTermSheet(offerId: nat)
      modifies this
      ensures State() == Apply(old(State()), Op.UploadTermSheet(offerId))
    {
      offers := ArchiveAll(offers);
      offers := offers + [OfferRow(offerId, Pending, false)];
      if stage.OffToLender? {
        stage := Offer;
        RecordTransition(OffToLender, Offer);
      }
    }

    /** `POST /offers/:id/accept`: changes the stage without logging it. */
    method AcceptOffer(offerId: nat) returns (found: bool)
      modifies this
      ensures found == HasOpenOffer(old(offers), offerId)
      ensures State() == Apply(old(State()), Op.ClientAccept(offerId))
    {
      found := HasOpenOffer(offers, offerId);
      if found {
        offers := Answer(offers, offerId, OfferAccepted);
        if stage.Offer? || stage.OffToLender? {
          stage := Accepted;
        }
      }
    }

    /** `POST /offers/:id/decline` */
    method DeclineOffer(offerId: nat) returns (found: bool)
      modifies this
      ensures found == HasOpenOffer(old(offers), offerId)
      ensures State() == Apply(old(State()), Op.ClientDecline(offerId))
    {
      found := HasOpenOffer(offers, offerId);
      if found {
        offers := Answer(offers, offerId, ChangesRequested);
      }
    }
  }

  // ---- Runs ----

  /** The state after `ops`, the latest last, of an application that starts with these documents and no offer. */
  function Run(docs: seq<Document>, ops: seq<Op>): App {
    if ops == [] then App(Received, docs, [], [])
    else Apply(Run(docs, ops[..|ops| - 1]), ops[|ops| - 1])
  }

  /** The logged changes follow on from each other, starting at Received. */
  predicate Chained(events: seq<StageEvent>) {
    && (events != [] ==> events[0].origin == Received)
    && forall i :: 0 <= i < |events| - 1 ==> events[i].target == events[i + 1].origin
  }

  function LastLogged(events: seq<StageEvent>): Stage {
    if events == [] then Received else events[|events| - 1].target
  }

  /** The changes that the handlers log. */
  predicate Legal(e: StageEvent) {
    match e.target
    case InReview => e.origin.Received?
    case OffToLender => e.origin.InReview? || e.origin.DocumentsRequired? || e.origin.AdditionalStepsRequired?
    case DocumentsRequired => e.origin.Received? || e.origin.InReview? || e.origin.OffToLender?
    case Offer => e.origin.OffToLender?
    case _ => false
  }

  predicate AtMostOneUnarchived(offers: seq<OfferRow>) {
    forall i, j :: 0 <= i < j < |offers| ==> offers[i].archived || offers[j].archived
  }

  predicate SomeAccepted(offers: seq<OfferRow>) {
    exists i :: 0 <= i < |offers| && offers[i].status.OfferAccepted?
  }

  predicate Inv(app: App) {
    && (app.stage.OffToLender? ==> AllDocumentsAccepted(app.docs))
    && (app.stage.Accepted? ==> SomeAccepted(app.offers))
    && AtMostOneUnarchived(app.offers)
    && Chained(app.events)
    && (forall i :: 0 <= i < |app.events| ==> Legal(app.events[i]))
    && (app.stage == LastLogged(app.events)
        || (app.stage.Accepted? && (LastLogged(app.events).Offer? || LastLogged(app.events).OffToLender?)))
  }

  lemma LoggedMove(app: App, target: Stage)
    requires Chained(app.events) && app.stage == LastLogged(app.events)
    requires forall i :: 0 <= i < |app.events| ==> Legal(app.events[i])
    requires Legal(StageEvent(app.stage, target))
    ensures var events := Moved(app, target).events;
            Chained(events) && LastLogged(events) == target && forall i :: 0 <= i < |events| ==> Legal(events[i])
  {
  }

  lemma AnswersKeep(offers: seq<OfferRow>, id: nat, status: OfferStatus)
    requires AtMostOneUnarchived(offers) && (status.OfferAccepted? || status.ChangesRequested?)
    ensures AtMostOneUnarchived(Answer(offers, id, status))
    ensures SomeAccepted(offers) ==> SomeAccepted(Answer(offers, id, status))
    ensures HasOpenOffer(offers, id) && status.OfferAccepted? ==> SomeAccepted(Answer(offers, id, status))
  {
    var r := Answer(offers, id, status);
    assert forall i :: 0 <= i < |r| ==> r[i].archived == offers[i].archived;
    if i :| 0 <= i < |offers| && offers[i].status.OfferAccepted? {
      assert r[i].status.OfferAccepted?;
    }
    if HasOpenOffer(offers, id) {
      var i :| 0 <= i < |offers| && offers[i].id == id && IsOpen(offers[i]);
      assert r[i].status == status;
    }
  }

  lemma UploadKeeps(offers: seq<OfferRow>, id: nat)
    ensures var r := ArchiveAll(offers) + [OfferRow(id, Pending, false)];
            AtMostOneUnarchived(r) && (SomeAccepted(offers) ==> SomeAccepted(r))
  {
    var r := ArchiveAll(offers) + [OfferRow(id, Pending, false)];
    if i :| 0 <= i < |offers| && offers[i].status.OfferAccepted? {
      assert r[i].status.OfferAccepted?;
    }
  }

  /** Accepting one more document does not undo that all are accepted. */
  lemma AcceptKeepsAll(docs: seq<Document>, id: nat)
    requires AllDocumentsAccepted(docs)
    ensures AllDocumentsAccepted(SetStatus(docs, id, DocAccepted))
  {
    hide CountNotRejected, CountAccepted;
    var r := SetStatus(docs, id, DocAccepted);
    AllDocumentsAcceptedMeans(docs);
    AllDocumentsAcceptedMeans(r);
    var d :| d in docs && d.status.DocAccepted?;
    var i :| 0 <= i < |docs| && docs[i] == d;
    assert r[i] in r && r[i].status.DocAccepted?;
  }

  lemma StepKeepsInv(app: App, op: Op)
    requires Inv(app)
    ensures Inv(Apply(app, op))
  {
    hide AllDocumentsAccepted, Chained, LastLogged, AtMostOneUnarchived, SomeAccepted, HasDocument, HasOpenOffer;
    match op
    case Open =>
      if app.stage.Received? { LoggedMove(app, InReview); }
    case AcceptDocument(id) =>
      if app.stage.OffToLender? { AcceptKeepsAll(app.docs, id); }
      if Apply(app, op).stage != app.stage { LoggedMove(app, OffToLender); }
    case RejectDocument(id) =>
      if Apply(app, op).stage != app.stage { LoggedMove(app, DocumentsRequired); }
    case UploadTermSheet(id) =>
      UploadKeeps(app.offers, id);
      if app.stage.OffToLender? { LoggedMove(app, Offer); }
    case ClientAccept(id) => AnswersKeep(app.offers, id, OfferAccepted);
    case ClientDecline(id) => AnswersKeep(app.offers, id, ChangesRequested);
  }

  /** Every state of every run. */
  lemma {:induction false} RunKeepsInv(docs: seq<Document>, ops: seq<Op>)
    ensures Inv(Run(docs, ops))
  {
    hide Apply;
    if ops == [] {
      assert Inv(App(Received, docs, [], []));
    } else {
      RunKeepsInv(docs, ops[..|ops| - 1]);
      StepKeepsInv(Run(docs, ops[..|ops| - 1]), ops[|ops| - 1]);
    }
  }

  lemma StageStays(app: App, op: Op)
    ensures app.stage.Offer? ==> Apply(app, op).stage.Offer? || Apply(app, op).stage.Accepted?
    ensures app.stage.Accepted? ==> Apply(app, op).stage.Accepted?
  {
    hide AllDocumentsAccepted, HasDocument, HasOpenOffer;
  }

  /** From any moment of a run to any later one: Offer is left only for Accepted, and Accepted is never left. */
  lemma {:induction false} LateStagesStick(docs: seq<Document>, ops: seq<Op>, i: nat)
    requires i <= |ops|
    ensures Run(docs, ops[..i]).stage.Offer? ==> Run(docs, ops).stage.Offer? || Run(docs, ops).stage.Accepted?
    ensures Run(docs, ops[..i]).stage.Accepted? ==> Run(docs, ops).stage.Accepted?
  {
    hide Apply;
    if i < |ops| {
      var k := |ops| - 1;
      assert ops[..k][..i] == ops[..i];
      LateStagesStick(docs, ops[..k], i);
      StageStays(Run(docs, ops[..k]), ops[k]);
    } else {
      assert ops[..i] == ops;
    }
  }

  /** What the handlers promise together, for every run. */
  lemma PipelineSafety(docs: seq<Document>, ops: seq<Op>)
    ensures var app := Run(docs, ops);
            && (app.stage.OffToLender? ==>
                  && (exists d :: d in app.docs && d.status.DocAccepted?)
                  && forall d :: d in app.docs ==> d.status.DocRejected? || d.status.DocAccepted?)
            && (app.stage.Accepted? ==> SomeAccepted(app.offers))
            && AtMostOneUnarchived(app.offers)
            && Chained(app.events)
            && (app.stage.Accepted? || app.stage == LastLogged(app.events))
  {
    hide Run, Chained, LastLogged, AtMostOneUnarchived, SomeAccepted;
    RunKeepsInv(docs, ops);
    AllDocumentsAcceptedMeans(Run(docs, ops).docs);
  }

  /** Nothing reaches Offer or Accepted except past a moment when every document was accepted or rejected. */
  lemma {:induction false} OfferNeedsDocuments(docs: seq<Document>, ops: seq<Op>) returns (k: nat)
    requires Run(docs, ops).stage.Offer? || Run(docs, ops).stage.Accepted?
    ensures k < |ops| && Run(docs, ops[..k]).stage.OffToLender? && AllDocumentsAccepted(Run(docs, ops[..k]).docs)
  {
    hide AllDocumentsAccepted, HasDocument, HasOpenOffer;
    var before := ops[..|ops| - 1];
    var app := Run(docs, before);
    if app.stage.OffToLender? {
      k := |ops| - 1;
      RunKeepsInv(docs, before);
    } else {
      k := OfferNeedsDocuments(docs, before);
      assert before[..k] == ops[..k];
    }
  }
}
