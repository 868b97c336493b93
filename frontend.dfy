/**
 * The single page of the client: a five-field form, a loading flag and the
 * last parsed response, the handlers that change them, and the choice of what
 * the page shows.
 *
 * The network is not modelled: a submission receives the outcome of its
 * request (the parsed body, or a failure of the request or of the parsing) as
 * a parameter.
 */
module Frontend {
  import opened Wrappers

  // ---------------------------------------------------------------------------
  // The form
  // ---------------------------------------------------------------------------

  /** The five controls of the form. */
  datatype Field = Material | FuelType | Height | Diameter | FuelFillPercentage

  /** The `name` attribute of each control, which is also its key in the form. */
  function Name(f: Field): string
  {
    match f
    case Material => "material"
    case FuelType => "fuel_type"
    case Height => "height"
    case Diameter => "diameter"
    case FuelFillPercentage => "fuel_fill_percentage"
  }

  const FormKeys: set<string> :=
    {"material", "fuel_type", "height", "diameter", "fuel_fill_percentage"}

  /** Each control writes its own key, and the five keys are exactly the controls' names. */
  lemma NamesAreFormKeys()
    ensures forall f :: Name(f) in FormKeys
    ensures forall k :: k in FormKeys ==> exists f :: Name(f) == k
    ensures forall f, g :: Name(f) == Name(g) ==> f == g
  {
    assert Name(Material) == "material";
    assert Name(FuelType) == "fuel_type";
    assert Name(Height) == "height";
    assert Name(Diameter) == "diameter";
    assert Name(FuelFillPercentage) == "fuel_fill_percentage";
  }

  /** The form before any input: every key holds the empty text. */
  function InitialForm(): (m: map<string, string>)
    ensures m.Keys == FormKeys
    ensures forall k :: k in m ==> m[k] == ""
  {
    map k | k in FormKeys :: ""
  }

  // ---------------------------------------------------------------------------
  // What the page receives and shows
  // ---------------------------------------------------------------------------

  /**
   * A parsed JSON response object: `delta_v` when the calculation succeeded,
   * `error` when the service refused the request.
   */
  datatype Payload = Payload(deltaV: Option<real>, error: Option<string>)

  /** Earth's escape velocity in m/s; reaching it counts as escaping. */
  const EscapeThreshold: real := 11200.0

  function Escapes(deltaV: real): bool
  {
    deltaV >= EscapeThreshold
  }

  const CalculatingLabel: string := "Calculating..."
  const CalculateLabel: string := "Calculate"

  /** The result area below the form: nothing, or the delta-v with the branch it falls in. */
  datatype Panel = NoPanel | DeltaVPanel(deltaV: real, escapes: bool)

  /** Everything of the page that depends on the state. */
  datatype View = View(buttonDisabled: bool, buttonLabel: string, spinner: bool, panel: Panel)

  /**
   * What the browser shows: the page, or nothing at all once rendering threw.
   * With no error boundary, an exception during render removes the whole
   * component, and no later event reaches it.
   */
  datatype Screen = Shows(view: View) | Crashed

  function ButtonLabel(loading: bool): string
  {
    if loading then CalculatingLabel else CalculateLabel
  }

  /**
   * The page as written: a stored result is shown whenever the page is not
   * loading, and its `delta_v` is formatted whether or not it exists; when it
   * does not, the render throws and the page is gone.
   */
  function RenderAsWritten(loading: bool, result: Option<Payload>): (s: Screen)
    ensures s == Crashed <==> !loading && result.Some? && result.value.deltaV.None?
    ensures s.Shows? ==> (s.view.buttonDisabled <==> loading)
    ensures s.Shows? ==> s.view.buttonLabel == (if loading then CalculatingLabel else CalculateLabel)
    ensures s.Shows? ==> (s.view.spinner <==> loading)
    ensures s.Shows? ==> (s.view.panel != NoPanel <==> !loading && result.Some?)
  {
    if !loading && result.Some? then
      match result.value.deltaV
      case Some(d) => Shows(View(false, ButtonLabel(false), false, DeltaVPanel(d, Escapes(d))))
      case None => Crashed
    else Shows(View(loading, ButtonLabel(loading), loading, NoPanel))
  }

  /**
   * The page with the result panel kept to results that carry a `delta_v`:
   * it always shows a view, which is the page as written whenever that one
   * does not crash, and shows exactly one of idle, spinner or result.
   */
  function Render(loading: bool, result: Option<Payload>): (v: View)
    ensures RenderAsWritten(loading, result) != Crashed ==> RenderAsWritten(loading, result) == Shows(v)
    ensures v.buttonDisabled <==> loading
    ensures v.buttonLabel == (if loading then CalculatingLabel else CalculateLabel)
    ensures v.spinner <==> loading
    ensures v.buttonDisabled <==> v.spinner
    ensures v.buttonLabel == CalculatingLabel <==> v.buttonDisabled
    ensures v.spinner ==> v.panel == NoPanel
    ensures v.panel.DeltaVPanel? <==> !loading && result.Some? && result.value.deltaV.Some?
    ensures v.panel.DeltaVPanel? ==> v.panel.deltaV == result.value.deltaV.value
    ensures v.panel.DeltaVPanel? ==> (v.panel.escapes <==> v.panel.deltaV >= EscapeThreshold)
  {
    var panel :=
      if !loading && result.Some? && result.value.deltaV.Some? then
        var d := result.value.deltaV.value;
        DeltaVPanel(d, Escapes(d))
      else NoPanel;
    View(loading, ButtonLabel(loading), loading, panel)
  }

  /** 11200 itself escapes; anything below it does not. */
  lemma EscapeBoundary(deltaV: real)
    ensures Render(false, Some(Payload(Some(EscapeThreshold), None))).panel == DeltaVPanel(EscapeThreshold, true)
    ensures deltaV < EscapeThreshold ==>
      Render(false, Some(Payload(Some(deltaV), None))).panel == DeltaVPanel(deltaV, false)
    ensures Render(false, Some(Payload(Some(11199.99), None))).panel.escapes == false
  {
  }

  // ---------------------------------------------------------------------------
  // The component state
  // ---------------------------------------------------------------------------

  class HomePage {
    var form: map<string, string>
    var loading: bool
    var result: Option<Payload>

    /** The form always holds exactly the five keys. */
    ghost predicate Valid()
      reads this
    {
      form.Keys == FormKeys
    }

    /**
     * What the page shows in its current state, with the result panel
     * corrected as in `Render`.
     */
    function Shown(): View
      reads this
    {
      Render(loading, result)
    }

    /** What the page as written shows in its current state. */
    function ShownAsWritten(): Screen
      reads this
    {
      RenderAsWritten(loading, result)
    }

    /** The state on first render. */
    constructor ()
      ensures Valid()
      ensures form == InitialForm() && !loading && result == None
      ensures Shown() == View(false, CalculateLabel, false, NoPanel)
    {
      form := InitialForm();
      loading := false;
      result := None;
    }

    /** A control reports its new text: only that control's key changes. */
    method HandleChange(field: Field, value: string)
      requires Valid()
      modifies this
      ensures Valid()
      ensures form == old(form)[Name(field) := value]
      ensures forall k :: k in form && k != Name(field) ==> form[k] == old(form)[k]
      ensures loading == old(loading) && result == old(result)
    {
      NamesAreFormKeys();
      form := form[Name(field) := value];
    }

    /** Before the request is sent: loading, and no stale result on screen. */
    method StartSubmit()
      modifies this
      ensures loading && result == None && form == old(form)
      ensures Shown().spinner && Shown().buttonDisabled && Shown().panel == NoPanel
    {
      loading := true;
      result := None;
    }

    /** The response was parsed: it becomes the result. */
    method Succeed(data: Payload)
      modifies this
      ensures result == Some(data)
      ensures loading == old(loading) && form == old(form)
    {
      result := Some(data);
    }

    /** Whatever happened, loading stops. */
    method Finish()
      modifies this
      ensures !loading
      ensures result == old(result) && form == old(form)
      ensures !Shown().spinner && !Shown().buttonDisabled
    {
      loading := false;
    }

    /**
     * One submission. `response` is the parsed body, or `None` when the
     * request or the parsing failed (the error is only logged). Returns the
     * body sent: the form as it stood.
     */
    method HandleSubmit(response: Option<Payload>) returns (sent: map<string, string>)
      requires Valid()
      modifies this
      ensures Valid()
      ensures sent == old(form) && sent.Keys == FormKeys
      ensures !loading && result == response && form == old(form)
      ensures Shown() == Render(false, response)
      ensures ShownAsWritten() == RenderAsWritten(false, response)
    {
      StartSubmit();
      sent := form;
      if response.Some? {
        Succeed(response.value);
      }
      Finish();
    }
  }

  /** Two submissions in a row: the second result replaces the first entirely. */
  method SubmitTwice(page: HomePage, first: Option<Payload>, second: Option<Payload>)
    requires page.Valid()
    modifies page
    ensures page.Valid() && page.result == second && !page.loading
  {
    var _ := page.HandleSubmit(first);
    var _ := page.HandleSubmit(second);
  }
}
