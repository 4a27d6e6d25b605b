/** Feature lookup `getFeature` (ux/grid/Printer.js:449-475): find the view's
    feature list, then return its first feature that serves the requested
    type. */
module Features {
  import opened Wrappers

  /** A view feature, as far as the printer reads it: its type tag and what
      its `getGroupField()` answers (only grouping features have one). */
  datatype Feature = Feature(ftype: string, groupField: Option<string>)

  /** The normal (unlocked) half of a locking view. */
  datatype NormalView = NormalView(featuresMC: Option<seq<Feature>>)

  /** The view properties `getFeature` reads.  `featuresMC` stands for the
      mixed collection's `items` array; `None` is a property that is not set.
      An array is truthy even when empty. */
  datatype View = View(
    features: Option<seq<Feature>>,
    featuresMC: Option<seq<Feature>>,
    normalView: Option<NormalView>)

  /** Which feature list the view offers (lines 452-459).  Reading
      `normalView.featuresMC` on a view without `normalView` raises a
      `TypeError`. */
  function ViewFeatures(view: View): (r: Result<Option<seq<Feature>>>)
    ensures view.features.Some? ==> r == Success(view.features)
    ensures view.features.None? && view.featuresMC.Some? ==> r == Success(view.featuresMC)
    ensures view.features.None? && view.featuresMC.None? && view.normalView.Some? ==>
      r == Success(view.normalView.value.featuresMC)
    ensures r.Failure? <==> view.features.None? && view.featuresMC.None? && view.normalView.None?
  {
    if view.features.Some? then Success(view.features)
    else if view.featuresMC.Some? then Success(view.featuresMC)
    else if view.normalView.None? then Failure(TypeError("featuresMC"))
    else Success(view.normalView.value.featuresMC)
  }

  /** Whether a feature of type `ftype` answers a request for `request`
      (lines 463-471): a grouping request is served by either grouping
      feature, the two summary requests only by their own type, and any other
      request by nothing. */
  predicate Serves(request: string, ftype: string)
    ensures request == "grouping" ==> (Serves(request, ftype) <==> ftype == "grouping" || ftype == "groupingsummary")
    ensures request == "groupingsummary" ==> (Serves(request, ftype) <==> ftype == "groupingsummary")
    ensures request == "summary" ==> (Serves(request, ftype) <==> ftype == "summary")
    ensures request != "grouping" && request != "groupingsummary" && request != "summary" ==> !Serves(request, ftype)
  {
    (request == "grouping" && (ftype == "grouping" || ftype == "groupingsummary"))
    || (request == "groupingsummary" && ftype == "groupingsummary")
    || (request == "summary" && ftype == "summary")
  }

  /** The first feature of the list that serves the request, if any. */
  function FirstServing(features: seq<Feature>, request: string): (r: Option<Feature>)
    ensures r.Some? ==>
      exists i :: 0 <= i < |features| && features[i] == r.value && Serves(request, r.value.ftype) &&
                  forall j :: 0 <= j < i ==> !Serves(request, features[j].ftype)
    ensures r.None? <==> forall j :: 0 <= j < |features| ==> !Serves(request, features[j].ftype)
    decreases |features|
  {
    if features == [] then None
    else if Serves(request, features[0].ftype) then Some(features[0])
    else
      var r := FirstServing(features[1..], request);
      if r.Some? then
        ghost var i :| 0 <= i < |features[1..]| && features[1..][i] == r.value && Serves(request, r.value.ftype)
          && forall j :: 0 <= j < i ==> !Serves(request, features[1..][j].ftype);
        assert forall j :: 0 <= j < i + 1 ==> !Serves(request, features[j].ftype) by {
          forall j | 0 <= j < i + 1 ensures !Serves(request, features[j].ftype) {
            if j > 0 { assert features[j] == features[1..][j - 1]; }
          }
        }
        assert features[i + 1] == r.value;
        r
      else
        assert forall j :: 1 <= j < |features| ==> features[j] == features[1..][j - 1];
        r
  }

  /** The search loop at lines 461-473, with its early return. */
  method FindFeature(features: seq<Feature>, request: string) returns (r: Option<Feature>)
    ensures r == FirstServing(features, request)
  {
    for i := 0 to |features|
      invariant FirstServing(features, request) == FirstServing(features[i..], request)
    {
      if request == "grouping" {
        if features[i].ftype == "grouping" || features[i].ftype == "groupingsummary" {
          return Some(features[i]);
        }
      }
      if request == "groupingsummary" {
        if features[i].ftype == "groupingsummary" {
          return Some(features[i]);
        }
      }
      if request == "summary" {
        if features[i].ftype == "summary" {
          return Some(features[i]);
        }
      }
      assert features[i..][1..] == features[i + 1..];
    }
    return None;
  }

  /** What `getFeature` answers: the error of reading the feature list,
      `undefined` when the view has none, else the first serving feature. */
  function Lookup(view: View, request: string): (r: Result<Option<Feature>>)
    ensures ViewFeatures(view).Failure? ==> r.Failure?
    ensures ViewFeatures(view) == Success(None) ==> r == Success(None)
    ensures ViewFeatures(view).Success? && ViewFeatures(view).value.Some? ==>
      r == Success(FirstServing(ViewFeatures(view).value.value, request))
  {
    match ViewFeatures(view)
    case Failure(e) => Failure(e)
    case Success(None) => Success(None)
    case Success(Some(fs)) => Success(FirstServing(fs, request))
  }

  /** `getFeature` (lines 449-475). */
  method GetFeature(view: View, request: string) returns (r: Result<Option<Feature>>)
    ensures r == Lookup(view, request)
  {
    var features := ViewFeatures(view);
    if features.Failure? {
      return Failure(features.error);
    }
    if features.value.Some? {
      var found := FindFeature(features.value.value, request);
      return Success(found);
    }
    return Success(None);
  }

  /** When the feature found for a grouping request is a grouping summary,
      a grouping-summary request finds that same feature. */
  lemma {:induction false} GroupingFindsGroupingSummary(features: seq<Feature>)
    requires FirstServing(features, "grouping").Some?
    requires FirstServing(features, "grouping").value.ftype == "groupingsummary"
    ensures FirstServing(features, "groupingsummary") == FirstServing(features, "grouping")
    decreases |features|
  {
    if features[0].ftype != "grouping" && features[0].ftype != "groupingsummary" {
      GroupingFindsGroupingSummary(features[1..]);
    }
  }

  /** A list that answers a grouping-summary request also answers a
      grouping request: with a plain grouping feature that comes first, or
      with the same grouping summary. */
  lemma {:induction false} GroupingSummaryImpliesGrouping(features: seq<Feature>)
    requires FirstServing(features, "groupingsummary").Some?
    ensures FirstServing(features, "grouping").Some?
    ensures FirstServing(features, "grouping").value.ftype == "grouping"
      || FirstServing(features, "grouping") == FirstServing(features, "groupingsummary")
    decreases |features|
  {
    if features[0].ftype != "grouping" && features[0].ftype != "groupingsummary" {
      GroupingSummaryImpliesGrouping(features[1..]);
    }
  }
}
