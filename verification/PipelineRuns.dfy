/**
 What a run of the portal handlers leaves behind, read off the run itself: the documents' statuses, the offers and their
 answers, and how each step moves the stage.
 */
module PipelineRuns {
  import opened Pipeline

  // ---- Documents ----

  /** What was last decided about a document, or how it started. */
  function LastVerdict(ops: seq<Op>, id: nat, initial: DocumentStatus): DocumentStatus {
    if ops == [] then initial
    else if ops[|ops| - 1] == AcceptDocument(id) then DocAccepted
    else if ops[|ops| - 1] == RejectDocument(id) then DocRejected
    else LastVerdict(ops[..|ops| - 1], id, initial)
  }

  /** Each document has the status that was last decided for it, whatever else happened. */
  lemma {:induction false} DocumentsFollowVerdicts(docs: seq<Document>, ops: seq<Op>)
    ensures var r := Run(docs, ops).docs;
            |r| == |docs|
            && forall i :: 0 <= i < |r| ==> r[i] == Document(docs[i].id, LastVerdict(ops, docs[i].id, docs[i].status))
  {
    if ops != [] {
      DocumentsFollowVerdicts(docs, ops[..|ops| - 1]);
      var before := Run(docs, ops[..|ops| - 1]).docs;
      var op := ops[|ops| - 1];
      if op.AcceptDocument? || op.RejectDocument? {
        assert !HasDocument(before, op.id) ==> forall i :: 0 <= i < |before| ==> before[i].id != op.id;
      }
    }
  }

  // ---- Offers ----

  /** The ids of the offers in the order in which their term sheets came. */
  function Uploads(ops: seq<Op>): seq<nat> {
    if ops == [] then []
    else Uploads(ops[..|ops| - 1]) + if ops[|ops| - 1].UploadTermSheet? then [ops[|ops| - 1].offerId] else []
  }

  /** There is one offer per term sheet, and all but the latest are archived. */
  lemma {:induction false} OffersFollowUploads(docs: seq<Document>, ops: seq<Op>)
    ensures var r := Run(docs, ops).offers;
            |r| == |Uploads(ops)|
            && forall i :: 0 <= i < |r| ==> r[i].id == Uploads(ops)[i] && (r[i].archived <==> i < |r| - 1)
  {
    hide AllDocumentsAccepted, HasDocument;
    if ops != [] {
      OffersFollowUploads(docs, ops[..|ops| - 1]);
    }
  }

  lemma {:induction false} UploadsGrow(ops: seq<Op>, k: nat)
    requires k <= |ops|
    ensures |Uploads(ops[..k])| <= |Uploads(ops)|
  {
    if k < |ops| {
      UploadsGrow(ops[..|ops| - 1], k);
      assert ops[..|ops| - 1][..k] == ops[..k];
    } else {
      assert ops[..k] == ops;
    }
  }

  /** Step `k` of the run is the client's answer `op` to offer `i` while it was the latest one and not yet answered. */
  predicate AnsweredAt(docs: seq<Document>, ops: seq<Op>, i: nat, k: nat, op: Op) {
    && k < |ops| && ops[k] == op && (op.ClientAccept? || op.ClientDecline?)
    && i < |Run(docs, ops[..k]).offers|
    && Run(docs, ops[..k]).offers[i] == OfferRow(op.offerId, Pending, false)
  }

  predicate Answered(docs: seq<Document>, ops: seq<Op>, i: nat, op: Op) {
    exists k :: 0 <= k < |ops| && AnsweredAt(docs, ops, i, k, op)
  }

  lemma AnsweredLast(docs: seq<Document>, ops: seq<Op>, i: nat, op: Op)
    requires ops != []
    ensures Answered(docs, ops, i, op) <==>
            Answered(docs, ops[..|ops| - 1], i, op) || AnsweredAt(docs, ops, i, |ops| - 1, op)
  {
    hide Run;
    var before := ops[..|ops| - 1];
    forall k | 0 <= k < |before|
      ensures AnsweredAt(docs, ops, i, k, op) == AnsweredAt(docs, before, i, k, op)
    {
      assert before[..k] == ops[..k];
    }
    if k :| 0 <= k < |before| && AnsweredAt(docs, before, i, k, op) {
      assert AnsweredAt(docs, ops, i, k, op);
    }
  }

  predicate StatusFollowsAnswers(docs: seq<Document>, ops: seq<Op>, i: nat, o: OfferRow) {
    && (o.status.OfferAccepted? <==> Answered(docs, ops, i, ClientAccept(o.id)))
    && (o.status.ChangesRequested? <==> Answered(docs, ops, i, ClientDecline(o.id)))
    && (o.status.OfferAccepted? || o.status.ChangesRequested? || o.status.Pending?)
  }

  /** An offer that has just come has no answer. */
  lemma NewOffer(docs: seq<Document>, ops: seq<Op>, i: nat, op: Op)
    requires i >= |Run(docs, ops).offers|
    ensures !Answered(docs, ops, i, op)
  {
    hide Run;
    forall k | 0 <= k < |ops|
      ensures !AnsweredAt(docs, ops, i, k, op)
    {
      OffersFollowUploads(docs, ops);
      OffersFollowUploads(docs, ops[..k]);
      UploadsGrow(ops, k);
    }
  }

  /** What a step does to an offer that is already there. */
  lemma StepOnOffer(app: App, op: Op, i: nat)
    requires i < |app.offers|
    ensures var offers := Apply(app, op).offers;
            && i < |offers| && offers[i].id == app.offers[i].id
            && offers[i].status ==
               if IsOpen(app.offers[i]) && op == ClientAccept(app.offers[i].id) then OfferAccepted
               else if IsOpen(app.offers[i]) && op == ClientDecline(app.offers[i].id) then ChangesRequested
               else app.offers[i].status
  {
    hide AllDocumentsAccepted, HasDocument;
  }

  /**
   An offer is accepted exactly when the client accepted it while it was the latest and unanswered, has changes
   requested exactly when the client declined it then, and is pending otherwise.
   */
  lemma {:induction false} OffersFollowAnswers(docs: seq<Document>, ops: seq<Op>, i: nat)
    requires i < |Run(docs, ops).offers|
    ensures StatusFollowsAnswers(docs, ops, i, Run(docs, ops).offers[i])
  {
    hide Apply, AnsweredAt, Answered;
    assert ops != [];
    var before, op := ops[..|ops| - 1], ops[|ops| - 1];
    var app, o := Run(docs, before), Run(docs, ops).offers[i];
    AnsweredLast(docs, ops, i, ClientAccept(o.id));
    AnsweredLast(docs, ops, i, ClientDecline(o.id));
    AnswerNow(docs, ops, i, ClientAccept(o.id));
    AnswerNow(docs, ops, i, ClientDecline(o.id));
    if i < |app.offers| {
      OffersFollowAnswers(docs, before, i);
      StepOnOffer(app, op, i);
    } else {
      NewOffer(docs, before, i, ClientAccept(o.id));
      NewOffer(docs, before, i, ClientDecline(o.id));
      OfferAdded(app, op, i);
    }
  }

  lemma AnswerNow(docs: seq<Document>, ops: seq<Op>, i: nat, op: Op)
    requires ops != [] && (op.ClientAccept? || op.ClientDecline?)
    ensures var app := Run(docs, ops[..|ops| - 1]);
            AnsweredAt(docs, ops, i, |ops| - 1, op) <==>
            ops[|ops| - 1] == op && i < |app.offers| && app.offers[i] == OfferRow(op.offerId, Pending, false)
  {
    hide Run;
  }

  lemma OfferAdded(app: App, op: Op, i: nat)
    requires |app.offers| <= i < |Apply(app, op).offers|
    ensures op.UploadTermSheet? && Apply(app, op).offers[i].status.Pending?
  {
    hide AllDocumentsAccepted, HasDocument;
  }

  // ---- The stage ----

  predicate DecidedBut(docs: seq<Document>, id: nat) {
    && (exists d :: d in docs && d.id == id)
    && forall d :: d in docs && d.id != id ==> d.status.DocAccepted? || d.status.DocRejected?
  }

  /** The stage that a step leads to, from what is there before it. */
  function Destination(app: App, op: Op): Stage {
    var s := app.stage;
    match op
    case Open => if s == Received then InReview else s
    case AcceptDocument(id) =>
      if s in {InReview, DocumentsRequired, AdditionalStepsRequired} && DecidedBut(app.docs, id) then OffToLender else s
    case RejectDocument(id) =>
      if s in {Received, InReview, OffToLender} && (exists d :: d in app.docs && d.id == id) then DocumentsRequired
      else s
    case UploadTermSheet(_) => if s == OffToLender then Offer else s
    case ClientAccept(id) =>
      if s in {Offer, OffToLender} && app.offers != [] && app.offers[|app.offers| - 1] == OfferRow(id, Pending, false)
      then Accepted else s
    case ClientDecline(_) => s
  }

  lemma HasDocumentMeans(docs: seq<Document>, id: nat)
    ensures HasDocument(docs, id) <==> exists d :: d in docs && d.id == id
  {
    if i :| 0 <= i < |docs| && docs[i].id == id {
      assert docs[i] in docs;
    }
  }

  /** Accepting a document leaves all accepted exactly when it was the last one open. */
  lemma LastOneOpen(docs: seq<Document>, id: nat)
    requires HasDocument(docs, id)
    ensures AllDocumentsAccepted(SetStatus(docs, id, DocAccepted)) <==> DecidedBut(docs, id)
  {
    hide AllDocumentsAccepted;
    var r := SetStatus(docs, id, DocAccepted);
    AllDocumentsAcceptedMeans(r);
    HasDocumentMeans(docs, id);
    var i :| 0 <= i < |docs| && docs[i].id == id;
    assert r[i] in r && r[i].status.DocAccepted?;
    if DecidedBut(docs, id) {
      forall d | d in r
        ensures d.status.DocRejected? || d.status.DocAccepted?
      {
        var j :| 0 <= j < |r| && r[j] == d;
        assert docs[j] in docs;
      }
    }
    if forall d :: d in r ==> d.status.DocRejected? || d.status.DocAccepted? {
      forall d | d in docs && d.id != id
        ensures d.status.DocAccepted? || d.status.DocRejected?
      {
        var j :| 0 <= j < |docs| && docs[j] == d;
        assert r[j] in r;
      }
    }
  }

  /** In a run, an offer can be answered exactly when it is the latest and pending. */
  lemma OnlyLatestIsOpen(docs: seq<Document>, ops: seq<Op>, id: nat)
    ensures var offers := Run(docs, ops).offers;
            HasOpenOffer(offers, id) <==> offers != [] && offers[|offers| - 1] == OfferRow(id, Pending, false)
  {
    hide Run, StatusFollowsAnswers;
    OffersFollowUploads(docs, ops);
    var offers := Run(docs, ops).offers;
    if offers != [] {
      OffersFollowAnswers(docs, ops, |offers| - 1);
      LatestStatus(docs, ops, |offers| - 1, offers[|offers| - 1]);
    }
  }

  lemma LatestStatus(docs: seq<Document>, ops: seq<Op>, i: nat, o: OfferRow)
    requires StatusFollowsAnswers(docs, ops, i, o)
    ensures o.status.OfferAccepted? || o.status.ChangesRequested? || o.status.Pending?
  {
    hide Answered;
  }

  /**
   Every step of every run leads where the table says; every move but the client's acceptance is logged, and nothing
   else is.
   */
  lemma StepsLeadOn(docs: seq<Document>, ops: seq<Op>, op: Op)
    ensures var a, b := Run(docs, ops), Run(docs, ops + [op]);
            && b.stage == Destination(a, op)
            && b.events == a.events + if b.stage != a.stage && !op.ClientAccept? then [StageEvent(a.stage, b.stage)]
                                      else []
  {
    hide Run, AllDocumentsAccepted, HasDocument, HasOpenOffer, DecidedBut;
    var a := Run(docs, ops);
    assert Run(docs, ops + [op]) == Apply(a, op) by { RunMore(docs, ops, op); }
    match op
    case AcceptDocument(id) =>
      HasDocumentMeans(a.docs, id);
      if HasDocument(a.docs, id) {
        LastOneOpen(a.docs, id);
      } else {
        NotDecided(a.docs, id);
      }
    case RejectDocument(id) => HasDocumentMeans(a.docs, id);
    case ClientAccept(id) => OnlyLatestIsOpen(docs, ops, id);
    case _ =>
  }

  lemma NotDecided(docs: seq<Document>, id: nat)
    requires !exists d :: d in docs && d.id == id
    ensures !DecidedBut(docs, id)
  {
  }

  lemma RunMore(docs: seq<Document>, ops: seq<Op>, op: Op)
    ensures Run(docs, ops + [op]) == Apply(Run(docs, ops), op)
  {
    assert (ops + [op])[..|ops|] == ops;
  }
}
