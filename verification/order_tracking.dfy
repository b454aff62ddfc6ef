/**
 Order tracking: the lookup guard and how the lookup's outcome is shown,
 the mapping from an order status to a step of the progress bar (with -1
 for cancelled and unknown statuses), the bar's width, the per-step
 markers and the displayed total.  The lookup call is a parameter.
 */
module OrderTracking {
  import opened Strings
  import opened Catalog

  /** The order row the lookup returns, reduced to what the page reads. */
  datatype TrackingOrder = TrackingOrder(id: string, orderStatus: string, totalPrice: int, shippingFee: Option<int>)

  /** The statuses of the progress bar, in order. */
  const Steps: seq<string> := ["new", "confirmed", "processing", "shipped", "delivered"]

  /** `indexOf`: the first position of `x` in `xs`, or -1. */
  function IndexOf(xs: seq<string>, x: string): (r: int)
    ensures -1 <= r < |xs|
    ensures r >= 0 ==> xs[r] == x && forall j :: 0 <= j < r ==> xs[j] != x
    ensures r == -1 <==> x !in xs
  {
    if |xs| == 0 then -1
    else if xs[0] == x then 0
    else
      var i := IndexOf(xs[1..], x);
      if i == -1 then -1 else i + 1
  }

  /** `getStatusStep`: a bar status maps to its position; "cancelled" and every other string map to -1. */
  function StatusStep(status: string): (r: int)
    ensures -1 <= r <= 4
    ensures r >= 0 <==> status in Steps
    ensures r >= 0 ==> Steps[r] == status
    ensures status == "cancelled" ==> r == -1
  {
    var i := IndexOf(Steps, status);
    if status == "cancelled" then -1 else i
  }

  /** Each bar status maps to its own position. */
  lemma StatusSteps()
    ensures StatusStep("new") == 0 && StatusStep("confirmed") == 1 && StatusStep("processing") == 2
    ensures StatusStep("shipped") == 3 && StatusStep("delivered") == 4
  {
    assert Steps[0] == "new" && Steps[1] == "confirmed" && Steps[2] == "processing";
    assert Steps[3] == "shipped" && Steps[4] == "delivered";
  }

  /** `order ? getStatusStep(order.order_status) : 0`. */
  function CurrentStep(order: Option<TrackingOrder>): (r: int)
    ensures order.None? ==> r == 0
    ensures order.Some? ==> r == StatusStep(order.value.orderStatus)
    ensures -1 <= r <= 4
  {
    match order
    case None => 0
    case Some(o) => StatusStep(o.orderStatus)
  }

  /** The filled width of the bar in percent, `min(100, max(0, step * 25))`. */
  function ProgressWidth(step: int): (r: int)
    ensures 0 <= r <= 100
    ensures step <= 0 ==> r == 0
    ensures step >= 4 ==> r == 100
    ensures 0 <= step <= 4 ==> r == 25 * step
  {
    var w := if step * 25 > 0 then step * 25 else 0;
    if w < 100 then w else 100
  }

  /** A later step never shows a shorter bar. */
  lemma ProgressMonotone(a: int, b: int)
    requires a <= b
    ensures ProgressWidth(a) <= ProgressWidth(b)
  {
  }

  /** Delivered fills the bar; cancelled and unknown statuses leave it empty. */
  lemma ProgressOfStatus(status: string)
    ensures status == "delivered" ==> ProgressWidth(StatusStep(status)) == 100
    ensures status !in Steps ==> ProgressWidth(StatusStep(status)) == 0
  {
    StatusSteps();
  }

  /** One of the five markers under the bar. */
  datatype Marker = Marker(completed: bool, current: bool, checked: bool)

  function MarkerAt(index: int, step: int): Marker {
    Marker(index <= step, index == step, index < step)
  }

  /** The markers: up to and including the step they are completed, the step's own one is current, the earlier ones carry a check. */
  function Markers(step: int): (r: seq<Marker>)
    ensures |r| == |Steps|
    ensures forall i :: 0 <= i < |r| ==> (r[i].completed <==> i <= step)
    ensures forall i :: 0 <= i < |r| ==> (r[i].current <==> i == step)
    ensures forall i :: 0 <= i < |r| ==> (r[i].checked <==> i < step)
  {
    seq(|Steps|, i => MarkerAt(i, step))
  }

  /** At most one marker is current, and the completed ones form a prefix. */
  lemma MarkersShape(step: int)
    ensures forall i, j ::
              (0 <= i < |Markers(step)| && 0 <= j < |Markers(step)| && Markers(step)[i].current && Markers(step)[j].current)
              ==> i == j
    ensures forall i, j :: 0 <= i <= j < |Markers(step)| && Markers(step)[j].completed ==> Markers(step)[i].completed
    ensures step < 0 ==> forall i :: 0 <= i < |Markers(step)| ==> !Markers(step)[i].completed
  {
  }

  /** The bar and its markers are shown for every status except "cancelled". */
  predicate ShowProgressBar(o: TrackingOrder) {
    o.orderStatus != "cancelled"
  }

  /** A status the bar does not know still shows the bar, empty and with no completed marker. */
  lemma UnknownStatusShowsEmptyBar(o: TrackingOrder)
    requires o.orderStatus !in Steps && o.orderStatus != "cancelled"
    ensures ShowProgressBar(o)
    ensures ProgressWidth(CurrentStep(Some(o))) == 0
    ensures forall i :: 0 <= i < |Steps| ==> !Markers(CurrentStep(Some(o)))[i].completed
  {
  }

  /** `total_price + (shipping_fee || 0)`: a missing fee counts as 0. */
  function DisplayedTotal(o: TrackingOrder): (r: int)
    ensures o.shippingFee.None? ==> r == o.totalPrice
    ensures o.shippingFee.Some? ==> r == o.totalPrice + o.shippingFee.value
    ensures r - o.totalPrice >= 0 <==> o.shippingFee.None? || o.shippingFee.value >= 0
  {
    o.totalPrice + (match o.shippingFee case None => 0 case Some(f) => f)
  }

  /** What the lookup call came back with. */
  datatype LookupOutcome =
    | LookupError(code: string)
    | LookupData(order: TrackingOrder)
    | LookupEmpty
    | LookupThrew

  /** The page's state after a lookup. */
  datatype View = View(order: Option<TrackingOrder>, error: Option<string>, hasSearched: bool)

  const NotFoundMessage: string := "Order not found. Please check your Order ID and try again."
  const EmptyMessage: string := "Order not found."
  const FailureMessage: string := "An error occurred while fetching your order. Please try again."

  /** The id the lookup is asked for: none when the input is blank, otherwise the trimmed input. */
  function TrackQuery(input: string): (r: Option<string>)
    ensures r.None? <==> IsBlank(input)
    ensures r.Some? ==> r.value == Trim(input) && r.value != ""
  {
    var t := Trim(input);
    if t == "" then None else Some(t)
  }

  /** `handleTrack`: a blank input changes nothing; otherwise the outcome decides between the order and one of three messages. */
  function Track(view: View, input: string, outcome: LookupOutcome): (r: View)
    ensures IsBlank(input) ==> r == view
    ensures !IsBlank(input) ==> r.hasSearched
    ensures !IsBlank(input) ==> (r.order.Some? <==> outcome.LookupData?)
    ensures !IsBlank(input) ==> (r.order.Some? <==> r.error.None?)
    ensures !IsBlank(input) && outcome.LookupData? ==> r.order == Some(outcome.order)
    ensures !IsBlank(input) && outcome.LookupError? ==>
              r.error == Some(if outcome.code == "PGRST116" then NotFoundMessage else FailureMessage)
    ensures !IsBlank(input) && outcome.LookupEmpty? ==> r.error == Some(EmptyMessage)
    ensures !IsBlank(input) && outcome.LookupThrew? ==> r.error == Some(FailureMessage)
  {
    if TrackQuery(input).None? then view
    else match outcome
      case LookupError(code) =>
        View(None, Some(if code == "PGRST116" then NotFoundMessage else FailureMessage), true)
      case LookupData(o) => View(Some(o), None, true)
      case LookupEmpty => View(None, Some(EmptyMessage), true)
      case LookupThrew => View(None, Some(FailureMessage), true)
  }
}
