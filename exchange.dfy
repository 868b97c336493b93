/**
 * How a response of the calculation service reaches the page. The page posts
 * the form, parses whatever body comes back and stores it as its result; the
 * HTTP status is never looked at, so the body of a 400 is stored like that of
 * a 200.
 */
module Exchange {
  import opened Wrappers
  import Backend
  import Frontend

  /** The object the page holds after parsing the JSON body of `r`. */
  function Received(r: Backend.Response): Frontend.Payload
  {
    match r.body
    case ErrorBody(e) => Frontend.Payload(None, Some(e))
    case DeltaVBody(d) => Frontend.Payload(Some(d), None)
  }

  /**
   * The page never looks at the status: two responses with the same body are
   * received alike. This documents the definition of `Received`, which reads
   * only the body, as page.js does.
   */
  lemma ReceivedIgnoresStatus(status1: int, status2: int, body: Backend.Body)
    ensures Received(Backend.Response(status1, body)) == Received(Backend.Response(status2, body))
  {
  }

  /**
   * What the page stores when the service answers `req`: a delta-v exactly
   * when the request is accepted, namely v_e * ln(m0 / mf) of it, and the
   * validator's error text otherwise.
   */
  lemma ReceivedOutcome(req: Backend.Request, ln: real -> real)
    ensures Received(Backend.CalculateDeltaV(req, ln)).deltaV.Some? <==> Backend.Validate(req).Success?
    ensures Backend.Validate(req).Success? ==>
      Received(Backend.CalculateDeltaV(req, ln)).deltaV == Some(Backend.DeltaV(Backend.Validate(req).value, ln))
    ensures Backend.Validate(req).Failure? ==>
      Received(Backend.CalculateDeltaV(req, ln)).error == Some(Backend.Validate(req).error)
  {
  }

  /**
   * One submission answered by the service. `req` is any request: how the
   * service converts the posted form into one is not modelled. The page
   * stores the parsed body whatever the status: the stored result carries a
   * delta-v exactly when the service accepted the request, and the service's
   * error text otherwise, and on a refused request the page as written
   * crashes while the corrected page shows no panel.
   */
  method SubmitToService(page: Frontend.HomePage, req: Backend.Request, ln: real -> real)
    requires page.Valid()
    modifies page
    ensures page.Valid() && !page.loading && page.form == old(page.form)
    ensures page.result.Some?
    ensures page.result.value.deltaV.Some? <==> Backend.Validate(req).Success?
    ensures Backend.Validate(req).Success? ==>
      page.result.value.deltaV == Some(Backend.DeltaV(Backend.Validate(req).value, ln))
    ensures Backend.Validate(req).Failure? ==>
      page.result.value.error == Some(Backend.Validate(req).error)
    ensures Backend.Validate(req).Failure? ==>
      page.ShownAsWritten() == Frontend.Crashed && page.Shown().panel == Frontend.NoPanel
  {
    var payload := Received(Backend.CalculateDeltaV(req, ln));
    ReceivedOutcome(req, ln);
    if Backend.Validate(req).Failure? {
      RefusedRequestBreaksPageAsWritten(req, ln);
    }
    var _ := page.HandleSubmit(Some(payload));
  }

  /**
   * Every refused request leaves the page, as written, holding a result with
   * no `delta_v`, which it then tries to format; the corrected page shows no
   * panel.
   */
  lemma RefusedRequestBreaksPageAsWritten(req: Backend.Request, ln: real -> real)
    requires Backend.Validate(req).Failure?
    ensures Frontend.RenderAsWritten(false, Some(Received(Backend.CalculateDeltaV(req, ln)))) == Frontend.Crashed
    ensures Frontend.Render(false, Some(Received(Backend.CalculateDeltaV(req, ln)))).panel
      == Frontend.NoPanel
  {
  }

  /**
   * The form labels the fill "0 to 100", and the service accepts only [0, 1]:
   * a steel rocket, 10 m tall and 1 m wide, half full of hydrazine entered as
   * 50, is refused, and the page as written cannot show the answer.
   */
  lemma HalfFullAsPercentBreaksPageAsWritten(req: Backend.Request, ln: real -> real)
    requires req == HalfFullAsPercent()
    ensures Backend.CalculateDeltaV(req, ln)
      == Backend.Response(Backend.BadRequest, Backend.ErrorBody(Backend.RangeError))
    ensures Frontend.RenderAsWritten(false, Some(Received(Backend.CalculateDeltaV(req, ln)))) == Frontend.Crashed
  {
    HalfFullAsPercentNamesKnown();
    Backend.FillAboveOneRejected(req, ln);
    RefusedRequestBreaksPageAsWritten(req, ln);
  }

  function HalfFullAsPercent(): Backend.Request
  {
    Backend.Request(Some("Steel"), Some("Hydrazine"), Some(10.0), Some(1.0), Some(50.0))
  }

  /** Steel and hydrazine are in the tables, with the densities listed there. */
  lemma HalfFullAsPercentNamesKnown()
    ensures Backend.Lookup(Backend.RocketMaterials, "Steel") == Some(7850.0)
    ensures Backend.Lookup(Backend.Fuels, "Hydrazine") == Some(Backend.Fuel(1010.0, 3500.0))
  {
    forall j | 0 <= j < 10
      ensures Backend.RocketMaterials[j].0 != Backend.RocketMaterials[10].0
    {
      Backend.MaterialPositionAt(j);
      Backend.MaterialPositionAt(10);
    }
    Backend.LookupAt(Backend.RocketMaterials, 10);
    Backend.LookupAt(Backend.Fuels, 0);
  }

  /**
   * An accepted request comes back as its delta-v, which the page shows
   * together with the right branch of the escape threshold.
   */
  lemma AcceptedRequestShown(req: Backend.Request, ln: real -> real)
    requires Backend.Validate(req).Success?
    ensures
      var dv := Backend.DeltaV(Backend.Validate(req).value, ln);
      Frontend.Render(false, Some(Received(Backend.CalculateDeltaV(req, ln)))).panel
        == Frontend.DeltaVPanel(dv, dv >= Frontend.EscapeThreshold)
  {
  }

  /** An empty tank, with a logarithm that maps 1 to 0, never escapes. */
  lemma EmptyTankNeverEscapes(req: Backend.Request, ln: real -> real)
    requires Backend.Validate(req).Success? && Backend.Fill(req) == 0.0
    requires ln(1.0) == 0.0
    ensures Frontend.Render(false, Some(Received(Backend.CalculateDeltaV(req, ln)))).panel
      == Frontend.DeltaVPanel(0.0, false)
  {
    Backend.ZeroFillZeroDeltaV(Backend.Validate(req).value, ln);
  }
}
