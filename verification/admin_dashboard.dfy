/**
 The product editor and product list of the back office: the save guard,
 how the form becomes the payload sent to the `products` table (undefined
 nullable fields become null, only table columns are kept, `image_url` is
 always present), the selection toggles, bulk delete with its counting and
 messages, the set-inclusions text area, and image-URL normalisation.

 A form is a JavaScript object: a map from keys to values, where a key may
 be missing, or present and `undefined`.
 */
module AdminDashboard {
  import opened Strings
  import opened Catalog

  /** A JavaScript value in the form object. */
  datatype Value =
    | Undefined
    | Null
    | Str(s: string)
    | Num(n: int)
    | Bool(b: bool)
    | List(items: seq<string>)
    | Object

  /** The keys a product form can carry; `Extra` stands for any other key. */
  datatype Key =
    | Id | Name | Description | Category | BasePrice | DiscountPrice | DiscountActive
    | PurityPercentage | MolecularWeight | CasNumber | Sequence | StorageConditions
    | Inclusions | StockQuantity | Available | Featured | ImageUrl | SafetySheetUrl
    | CreatedAt | UpdatedAt | Variations
    | Extra(name: string)

  type Form = map<Key, Value>

  /** `data[key]`: a missing key reads as `undefined`. */
  function Get(form: Form, key: Key): (r: Value)
    ensures key !in form ==> r == Undefined
    ensures key in form ==> r == form[key]
  {
    if key in form then form[key] else Undefined
  }

  /** JavaScript truthiness: `undefined`, `null`, `""` and `0` are falsy; arrays and objects are truthy. */
  predicate Truthy(v: Value) {
    match v
    case Undefined => false
    case Null => false
    case Str(s) => s != ""
    case Num(n) => n != 0
    case Bool(b) => b
    case List(_) => true
    case Object => true
  }

  /** `handleSaveProduct`'s guard: name, description and base price must all be truthy. */
  function SaveAllowed(form: Form): (r: bool)
    ensures r ==> Name in form && Description in form && BasePrice in form
    ensures r ==> form[BasePrice] != Num(0) && form[Name] != Str("") && form[Description] != Str("")
    ensures !r <==> !Truthy(Get(form, Name)) || !Truthy(Get(form, Description)) || !Truthy(Get(form, BasePrice))
  {
    Truthy(Get(form, Name)) && Truthy(Get(form, Description)) && Truthy(Get(form, BasePrice))
  }

  /** The seven nullable columns `prepareData` fills with null. */
  predicate IsNullable(k: Key) {
    match k
    case ImageUrl | SafetySheetUrl | DiscountPrice | MolecularWeight | CasNumber | Sequence | Inclusions => true
    case _ => false
  }

  const NullableKeys: set<Key> := {ImageUrl, SafetySheetUrl, DiscountPrice, MolecularWeight, CasNumber, Sequence, Inclusions}

  lemma NullableKeysListed()
    ensures forall k :: IsNullable(k) <==> k in NullableKeys
  {
  }

  /** The columns of the `products` table the payload may carry; `inclusions` is not among them. */
  predicate IsAllowed(k: Key) {
    match k
    case Id | Inclusions | CreatedAt | UpdatedAt | Variations | Extra(_) => false
    case _ => true
  }

  /** `prepareData`: each nullable key that reads as undefined becomes null; every other entry is kept as it is. */
  function PrepareData(form: Form): (r: Form)
    ensures forall k :: k in r <==> k in form || IsNullable(k)
    ensures forall k :: IsNullable(k) ==> r[k] == if Get(form, k) == Undefined then Null else form[k]
    ensures forall k :: k in form && !IsNullable(k) ==> r[k] == form[k]
  {
    NullableKeysListed();
    map k | k in form.Keys + NullableKeys :: if IsNullable(k) && Get(form, k) == Undefined then Null else form[k]
  }

  /** Preparing twice is preparing once. */
  lemma PrepareDataIdempotent(form: Form)
    ensures PrepareData(PrepareData(form)) == PrepareData(form)
  {
    var once := PrepareData(form);
    var twice := PrepareData(once);
    assert twice.Keys == once.Keys;
  }

  /** `pickProductDbFields`: the entries whose key is a table column, values untouched. */
  function PickDbFields(data: Form): (r: Form)
    ensures forall k :: k in r <==> k in data && IsAllowed(k)
    ensures forall k :: k in r ==> r[k] == data[k]
  {
    map k | k in data.Keys && IsAllowed(k) :: data[k]
  }

  /** `image_url` as the editor holds it: undefined becomes null. */
  function ImageUrlValue(form: Form): (r: Value)
    ensures r != Undefined
    ensures Get(form, ImageUrl) != Undefined ==> r == form[ImageUrl]
  {
    if Get(form, ImageUrl) != Undefined then form[ImageUrl] else Null
  }

  /** `form` without the given keys, as a rest pattern `{ a, b, ...rest }` leaves it. */
  function Without(form: Form, keys: set<Key>): (r: Form)
    ensures forall k :: k in r <==> k in form && k !in keys
    ensures forall k :: k in r ==> r[k] == form[k]
  {
    map k | k in form.Keys && k !in keys :: form[k]
  }

  /** Two forms hold the same entries for every table column. */
  ghost predicate AgreeOnColumns(a: Form, b: Form) {
    forall k :: IsAllowed(k) ==> (k in a <==> k in b) && (k in a ==> a[k] == b[k])
  }

  lemma WithoutAgrees(form: Form, keys: set<Key>)
    requires forall k :: k in keys ==> !IsAllowed(k)
    ensures AgreeOnColumns(Without(form, keys), form)
  {
  }

  lemma UpdateAgrees(a: Form, b: Form, key: Key, v: Value)
    requires AgreeOnColumns(a, b)
    ensures AgreeOnColumns(a[key := v], b[key := v])
  {
  }

  lemma PrepareAgrees(a: Form, b: Form)
    requires AgreeOnColumns(a, b)
    ensures AgreeOnColumns(PrepareData(a), PrepareData(b))
  {
    forall k | IsAllowed(k) ensures Get(a, k) == Get(b, k) {
    }
  }

  /** Forms that agree on every column give the same pick. */
  lemma PickAgrees(a: Form, b: Form)
    requires AgreeOnColumns(a, b)
    ensures PickDbFields(a) == PickDbFields(b)
  {
    assert PickDbFields(a).Keys == PickDbFields(b).Keys;
  }

  /**
   `image_url` forced, then `prepareData`, then the column pick: exactly
   the table columns the data carries or that are nullable; the data's
   value for a non-nullable column, null for an undefined nullable one, and
   the forced `image_url`.
   */
  function Finish(data: Form, image: Value): (r: Form)
    requires image != Undefined
    ensures forall k :: k in r <==> IsAllowed(k) && (k in data || IsNullable(k))
    ensures forall k :: k in r && !IsNullable(k) ==> r[k] == data[k]
    ensures forall k :: k in r && IsNullable(k) && k != ImageUrl ==> r[k] == if Get(data, k) == Undefined then Null else data[k]
    ensures ImageUrl in r && r[ImageUrl] == image
  {
    var forced := data[ImageUrl := image];
    var prepared := PrepareData(forced);
    var r := PickDbFields(prepared);
    forall k | k != ImageUrl
      ensures k in r <==> IsAllowed(k) && (k in data || IsNullable(k))
      ensures k in r ==> r[k] == prepared[k]
      ensures IsNullable(k) ==> prepared[k] == if Get(data, k) == Undefined then Null else data[k]
      ensures k in data && !IsNullable(k) ==> prepared[k] == data[k]
    {
      assert (k in forced <==> k in data) && Get(forced, k) == Get(data, k);
    }
    r
  }

  /** Dropping keys that are not table columns before finishing changes nothing. */
  lemma FinishIgnoresDropped(form: Form, keys: set<Key>, image: Value)
    requires image != Undefined
    requires forall k :: k in keys ==> !IsAllowed(k)
    ensures Finish(Without(form, keys), image) == Finish(form, image)
  {
    var d := Without(form, keys);
    WithoutAgrees(form, keys);
    UpdateAgrees(d, form, ImageUrl, image);
    PrepareAgrees(d[ImageUrl := image], form[ImageUrl := image]);
    PickAgrees(PrepareData(d[ImageUrl := image]), PrepareData(form[ImageUrl := image]));
  }

  /** Preparing keeps a defined `image_url`, so forcing it again afterwards is a no-op. */
  lemma ForcingAgainIsNoOp(data: Form, image: Value)
    requires image != Undefined
    ensures var prepared := PrepareData(data[ImageUrl := image]);
            prepared[ImageUrl := image] == prepared
  {
    var prepared := PrepareData(data[ImageUrl := image]);
    assert prepared[ImageUrl] == image;
  }

  /** The keys an update drops: the id, the timestamps and the variations relation. */
  const ReadOnlyKeys: set<Key> := {Id, CreatedAt, UpdatedAt, Variations}

  lemma ReadOnlyKeysAreNotColumns()
    ensures forall k :: k in ReadOnlyKeys ==> !IsAllowed(k)
  {
  }

  /**
   The update payload: read-only keys and relations dropped, `image_url`
   forced before and after preparing, then the column pick.  None of the
   dropped keys is a column and the second forcing changes nothing, so it
   is the full form finished with the editor's `image_url`.
   */
  function UpdatePayload(form: Form): (r: Form)
    ensures r == Finish(form, ImageUrlValue(form))
    ensures ImageUrl in r
  {
    var image := ImageUrlValue(form);
    var rest := Without(form, ReadOnlyKeys);
    var prepared := PrepareData(rest[ImageUrl := image]);
    ForcingAgainIsNoOp(rest, image);
    ReadOnlyKeysAreNotColumns();
    FinishIgnoresDropped(form, ReadOnlyKeys, image);
    PickDbFields(prepared[ImageUrl := image])
  }

  /** The insert payload: relations dropped, `image_url` forced, then prepared and picked; the same as finishing the full form, so an edit sends what a create would. */
  function CreatePayload(form: Form): (r: Form)
    ensures r == Finish(form, ImageUrlValue(form))
    ensures ImageUrl in r
  {
    var image := ImageUrlValue(form);
    FinishIgnoresDropped(form, {Variations}, image);
    PickDbFields(PrepareData(Without(form, {Variations})[ImageUrl := image]))
  }

  /** Set inclusions typed into the editor never reach the table: neither payload carries `inclusions`. */
  lemma InclusionsAreNotSent(form: Form)
    ensures Inclusions !in UpdatePayload(form) && Inclusions !in CreatePayload(form)
  {
  }

  const RequiredFieldsMessage: string := "Please fill in all required fields"

  /** What a press of "Save" leads to. */
  datatype SaveRequest =
    | Rejected(alert: string)
    | Update(id: string, payload: Form)
    | Create(payload: Form)

  /** `handleSaveProduct`: rejected before any call unless the guard holds; otherwise an update of the edited product or a create. */
  function Save(form: Form, editing: Option<string>): (r: SaveRequest)
    ensures r.Rejected? <==> !SaveAllowed(form)
    ensures r.Rejected? ==> r.alert == RequiredFieldsMessage
    ensures r.Update? <==> SaveAllowed(form) && editing.Some?
    ensures r.Update? ==> r.id == editing.value && ImageUrl in r.payload
    ensures r.Update? ==> forall k :: k in r.payload ==> IsAllowed(k)
    ensures r.Create? ==> ImageUrl in r.payload && forall k :: k in r.payload ==> IsAllowed(k)
    ensures !r.Rejected? ==> r.payload == Finish(form, ImageUrlValue(form))
  {
    if !SaveAllowed(form) then Rejected(RequiredFieldsMessage)
    else match editing
      case Some(id) => Update(id, UpdatePayload(form))
      case None => Create(CreatePayload(form))
  }

  /** How the update or create call, and the refresh after it, ended:
      `SaveFailed` is a `{ success: false, error }` result (`None` when `error`
      is undefined); `SaveThrew` is an exception, carrying its message when it
      is an `Error`. */
  datatype SaveOutcome = SaveSucceeded | SaveFailed(error: Option<string>) | SaveThrew(message: Option<string>)

  /** What the dashboard shows after "Save": whether it went back to the
      product list (edit cleared, size manager closed), and the alert raised. */
  datatype AfterSave = AfterSave(backToList: bool, alert: Option<string>)

  const SaveFailedPrefix: string := "Failed to save product: "

  /** The message of the error the save handler's `catch` receives.  An
      update failure throws `result.error || 'Failed to update product'`; a
      create failure throws `result.error` as it is, and `new Error(undefined)`
      has the empty message. */
  function CaughtMessage(creating: bool, outcome: SaveOutcome): string {
    match outcome
    case SaveSucceeded => ""
    case SaveFailed(e) =>
      if creating then (if e.Some? then e.value else "")
      else if e.Some? && e.value != "" then e.value else "Failed to update product"
    case SaveThrew(m) => if m.Some? then m.value else "Unknown error"
  }

  /** `handleSaveProduct` to its end: a rejected form only alerts; a save that
      went through returns to the list without an alert; one that failed stays
      in the editor and alerts the failure. */
  function AfterSaving(form: Form, editing: Option<string>, outcome: SaveOutcome): (r: AfterSave)
    ensures r.backToList <==> SaveAllowed(form) && outcome.SaveSucceeded?
    ensures r.alert.None? <==> r.backToList
    ensures !SaveAllowed(form) ==> r.alert == Some(RequiredFieldsMessage)
    ensures SaveAllowed(form) && outcome.SaveFailed? && outcome.error.Some? && outcome.error.value != "" ==>
              r.alert == Some(SaveFailedPrefix + outcome.error.value)
    ensures SaveAllowed(form) && editing.Some? && outcome.SaveFailed? && (outcome.error.None? || outcome.error.value == "") ==>
              r.alert == Some(SaveFailedPrefix + "Failed to update product")
    ensures SaveAllowed(form) && editing.None? && outcome.SaveFailed? && (outcome.error.None? || outcome.error.value == "") ==>
              r.alert == Some(SaveFailedPrefix)
    ensures SaveAllowed(form) && outcome.SaveThrew? ==>
              r.alert == Some(SaveFailedPrefix + if outcome.message.Some? then outcome.message.value else "Unknown error")
  {
    if !SaveAllowed(form) then AfterSave(false, Some(RequiredFieldsMessage))
    else if outcome.SaveSucceeded? then AfterSave(true, None)
    else
      var message := CaughtMessage(editing.None?, outcome);
      assert message == "" ==> SaveFailedPrefix + message == SaveFailedPrefix;
      AfterSave(false, Some(SaveFailedPrefix + message))
  }

  /** `toggleSelectProduct`: the id's membership flips, every other id's stays. */
  function ToggleSelect(selected: set<string>, id: string): (r: set<string>)
    ensures id in r <==> id !in selected
    ensures forall x :: x != id ==> (x in r <==> x in selected)
  {
    if id in selected then selected - {id} else selected + {id}
  }

  /** Toggling the same product twice restores the selection. */
  lemma ToggleSelectInvolution(selected: set<string>, id: string)
    ensures ToggleSelect(ToggleSelect(selected, id), id) == selected
  {
  }

  /** The ids of a product list, as `new Set(products.map(p => p.id))`. */
  function ProductIds(products: seq<Product>): (r: set<string>)
    ensures forall i :: 0 <= i < |products| ==> products[i].id in r
    ensures forall x :: x in r ==> exists i :: 0 <= i < |products| && products[i].id == x
    ensures |r| <= |products|
  {
    if |products| == 0 then {}
    else
      var rest := ProductIds(products[1..]);
      IdsOfCons(products, rest);
      {products[0].id} + rest
  }

  /** The ids of a non-empty list are its first id and the ids of the rest. */
  lemma IdsOfCons(products: seq<Product>, rest: set<string>)
    requires |products| > 0
    requires forall i :: 0 <= i < |products| - 1 ==> products[1..][i].id in rest
    requires forall x :: x in rest ==> exists i :: 0 <= i < |products| - 1 && products[1..][i].id == x
    ensures forall i :: 0 <= i < |products| ==> products[i].id in {products[0].id} + rest
    ensures forall x :: x in {products[0].id} + rest ==> exists i :: 0 <= i < |products| && products[i].id == x
  {
    forall x | x in rest ensures exists i :: 0 <= i < |products| && products[i].id == x {
      var j :| 0 <= j < |products| - 1 && products[1..][j].id == x;
      assert products[j + 1].id == x;
    }
    forall i | 1 <= i < |products| ensures products[i].id in rest {
      assert products[1..][i - 1].id == products[i].id;
    }
  }


  /** `toggleSelectAll`: clear when the selection is as large as the product list, otherwise select every product. */
  function ToggleSelectAll(selected: set<string>, products: seq<Product>): (r: set<string>)
    ensures |selected| == |products| ==> r == {}
    ensures |selected| != |products| ==> r == ProductIds(products)
  {
    if |selected| == |products| then {} else ProductIds(products)
  }

  predicate DistinctIds(products: seq<Product>) {
    forall i, j :: 0 <= i < j < |products| ==> products[i].id != products[j].id
  }

  /** With distinct ids, a list has as many ids as products. */
  lemma {:induction false} DistinctIdsCount(products: seq<Product>)
    requires DistinctIds(products)
    ensures |ProductIds(products)| == |products|
    decreases |products|
  {
    if |products| > 0 {
      DistinctIdsCount(products[1..]);
      assert products[0].id !in ProductIds(products[1..]);
    }
  }

  /** For a selection of listed products with distinct ids, comparing sizes is comparing sets. */
  lemma FullSelectionBySize(selected: set<string>, products: seq<Product>)
    requires DistinctIds(products)
    requires selected <= ProductIds(products)
    ensures |selected| == |products| <==> selected == ProductIds(products)
  {
    var ids := ProductIds(products);
    DistinctIdsCount(products);
    if selected != ids {
      var x :| x in ids && x !in selected;
      SubsetSize(selected, ids - {x});
    }
  }

  /** A subset is no larger than its superset. */
  lemma {:induction false} SubsetSize<T>(a: set<T>, b: set<T>)
    requires a <= b
    ensures |a| <= |b|
    decreases |a|
  {
    if a != {} {
      var y :| y in a;
      SubsetSize(a - {y}, b - {y});
    }
  }

  /** Under the same conditions, "select all" clears a full selection and fills any other, so pressing it twice on a full selection restores it. */
  lemma SelectAllTogglesFullSelection(selected: set<string>, products: seq<Product>)
    requires DistinctIds(products)
    requires selected <= ProductIds(products)
    ensures selected == ProductIds(products) ==> ToggleSelectAll(selected, products) == {}
    ensures selected != ProductIds(products) ==> ToggleSelectAll(selected, products) == ProductIds(products)
    ensures selected == ProductIds(products) ==>
              ToggleSelectAll(ToggleSelectAll(selected, products), products) == selected
  {
    FullSelectionBySize(selected, products);
    FullSelectionBySize({}, products);
  }

  /** What one `deleteProduct` call came back with, or that it threw. */
  datatype DeleteResult = Deleted | NotDeleted | Threw

  /** The calls made, the counts, the alert shown, and whether the selection was cleared. */
  datatype BulkDeleteOutcome = BulkDeleteOutcome(
    calls: seq<string>,
    successCount: nat,
    failedCount: nat,
    alert: Option<string>,
    cleared: bool)

  function SuccessCount(ids: seq<string>, result: string -> DeleteResult): nat {
    if |ids| == 0 then 0
    else SuccessCount(ids[..|ids| - 1], result) + (if result(ids[|ids| - 1]) == Deleted then 1 else 0)
  }

  const AllDeletedPrefix: string := "Successfully deleted "
  const SomeFailedPrefix: string := "Deleted "

  /** The summary alert after every call has returned. */
  function BulkDeleteMessage(successCount: nat, failedCount: nat): (r: string)
    ensures failedCount == 0 ==> |r| > |AllDeletedPrefix| && r[..|AllDeletedPrefix|] == AllDeletedPrefix
    ensures failedCount > 0 ==> |r| > |SomeFailedPrefix| && r[..|SomeFailedPrefix|] == SomeFailedPrefix
  {
    if failedCount > 0 then
      SomeFailedPrefix + NatToString(successCount) + " product(s). " + NatToString(failedCount) + " failed."
    else
      AllDeletedPrefix + NatToString(successCount) + " product(s)"
  }

  /** The number written right after a prefix of the summary alert. */
  function CountAt(m: string, k: nat): int
    requires k <= |m|
  {
    DigitsValue(LeadingDigits(m[k..]))
  }

  /** A summary without failures reads back as its success count. */
  lemma AllDeletedMessageReadsBack(successCount: nat)
    ensures CountAt(BulkDeleteMessage(successCount, 0), |AllDeletedPrefix|) == successCount
  {
    LeadingDigitsAfter(AllDeletedPrefix, NatToString(successCount), " product(s)");
  }

  /** A summary with failures reads back as both counts: the successes after
      its prefix, the failures after " product(s). ". */
  lemma SomeFailedMessageReadsBack(successCount: nat, failedCount: nat)
    requires failedCount > 0
    ensures var m := BulkDeleteMessage(successCount, failedCount);
            && CountAt(m, |SomeFailedPrefix|) == successCount
            && var k := |SomeFailedPrefix| + |LeadingDigits(m[|SomeFailedPrefix|..])| + |" product(s). "|;
               k <= |m| && CountAt(m, k) == failedCount
  {
    LeadingDigitsOfTwo(SomeFailedPrefix, NatToString(successCount), " product(s). ", NatToString(failedCount), " failed.");
  }

  /**
   `handleBulkDelete`.  `selection` lists the selected ids in the selection
   set's iteration order; `result` gives what deleting each id returns.
   */
  method BulkDelete(selection: seq<string>, confirmed: bool, result: string -> DeleteResult)
    returns (out: BulkDeleteOutcome)
    ensures |selection| == 0 ==>
              out == BulkDeleteOutcome([], 0, 0, Some("Please select products to delete"), false)
    ensures |selection| > 0 && !confirmed ==> out == BulkDeleteOutcome([], 0, 0, None, false)
    ensures out.calls <= selection
    ensures out.cleared <==> confirmed && |selection| > 0 && forall i :: 0 <= i < |selection| ==> result(selection[i]) != Threw
    ensures out.cleared ==> out.calls == selection
    ensures out.cleared ==> out.successCount + out.failedCount == |selection|
    ensures out.cleared ==> out.successCount == SuccessCount(selection, result)
    ensures out.cleared ==> out.alert == Some(BulkDeleteMessage(out.successCount, out.failedCount))
    ensures confirmed && |selection| > 0 && !out.cleared ==>
              && |out.calls| > 0 && result(out.calls[|out.calls| - 1]) == Threw
              && (forall i :: 0 <= i < |out.calls| - 1 ==> result(out.calls[i]) != Threw)
              && out.alert == Some("Failed to delete products. Please try again.")
  {
    if |selection| == 0 {
      return BulkDeleteOutcome([], 0, 0, Some("Please select products to delete"), false);
    }
    if !confirmed {
      return BulkDeleteOutcome([], 0, 0, None, false);
    }
    var success, failed := 0, 0;
    var i := 0;
    while i < |selection|
      invariant 0 <= i <= |selection|
      invariant success + failed == i
      invariant success == SuccessCount(selection[..i], result)
      invariant forall j :: 0 <= j < i ==> result(selection[j]) != Threw
    {
      var r := result(selection[i]);
      if r == Threw {
        return BulkDeleteOutcome(selection[..i + 1], success, failed,
                                 Some("Failed to delete products. Please try again."), false);
      }
      assert selection[..i + 1][..i] == selection[..i];
      if r == Deleted {
        success := success + 1;
      } else {
        failed := failed + 1;
      }
      i := i + 1;
    }
    assert selection[..i] == selection;
    out := BulkDeleteOutcome(selection, success, failed, Some(BulkDeleteMessage(success, failed)), true);
  }

  /** The text area's contents: the items joined by newlines, or empty for null or no items. */
  function InclusionsText(inclusions: Option<seq<string>>): (r: string)
    ensures inclusions.None? || |inclusions.value| == 0 ==> r == ""
  {
    match inclusions
    case None => ""
    case Some(items) => if |items| == 0 then "" else Join(items, '\n')
  }

  /** The text area's lines, `split('\n')`. */
  function Lines(text: string): (r: seq<string>)
    ensures |r| >= 1
    ensures forall i :: 0 <= i < |r| ==> '\n' !in r[i]
  {
    Split(text, '\n')
  }

  /** The lines that are not blank, untrimmed and in order, or null when there are none. */
  function NonBlankLines(lines: seq<string>): (r: Option<seq<string>>)
    ensures r.Some? ==> |r.value| > 0
    ensures r.Some? ==> forall i :: 0 <= i < |r.value| ==> !IsBlank(r.value[i]) && r.value[i] in lines
    ensures r.Some? ==> IsSubsequence(r.value, lines)
    ensures r.None? <==> forall i :: 0 <= i < |lines| ==> IsBlank(lines[i])
  {
    var items := FilterBy(lines, HasText);
    FilterIsSubsequence(lines, HasText);
    FilterEmptyIff(lines, HasText);
    if |items| > 0 then Some(items) else None
  }

  /** Typing into the text area: the non-blank lines of the text, or null when there are none. */
  function ParseInclusions(text: string): (r: Option<seq<string>>)
    ensures r.Some? ==> |r.value| > 0
    ensures r.Some? ==> forall i :: 0 <= i < |r.value| ==> !IsBlank(r.value[i]) && '\n' !in r.value[i]
    ensures r.Some? ==> IsSubsequence(r.value, Lines(text))
    ensures r.None? <==> forall i :: 0 <= i < |Lines(text)| ==> IsBlank(Lines(text)[i])
  {
    NonBlankLines(Lines(text))
  }

  /** Items without blank entries or newlines survive being shown and typed back unchanged. */
  lemma ParseShowsRoundTrip(items: seq<string>)
    requires |items| > 0
    requires forall i :: 0 <= i < |items| ==> !IsBlank(items[i]) && '\n' !in items[i]
    ensures ParseInclusions(InclusionsText(Some(items))) == Some(items)
  {
    SplitJoin(items, '\n');
    assert Lines(InclusionsText(Some(items))) == items;
    FilterKeepsAll(items, HasText);
  }

  /** Whatever was typed, what is stored shows as text that parses back to the same items. */
  lemma ParseIsStable(text: string)
    ensures var r := ParseInclusions(text);
            r.Some? ==> ParseInclusions(InclusionsText(r)) == r
  {
    var r := ParseInclusions(text);
    if r.Some? {
      ParseShowsRoundTrip(r.value);
    }
  }

  /** The image field's normalisation: missing or empty gives null, otherwise the trimmed URL, with a blank one giving null. */
  function NormaliseImageUrl(url: Option<string>): (r: Option<string>)
    ensures r.None? <==> url.None? || IsBlank(url.value)
    ensures r.Some? ==> r.value == Trim(url.value) && r.value != ""
  {
    match url
    case None => None
    case Some(u) =>
      if u == "" then None
      else
        var t := Trim(u);
        if t == "" then None else Some(t)
  }

  /** Normalising a normalised URL changes nothing. */
  lemma NormaliseImageUrlIdempotent(url: Option<string>)
    ensures NormaliseImageUrl(NormaliseImageUrl(url)) == NormaliseImageUrl(url)
  {
    if url.Some? {
      TrimIdempotent(url.value);
    }
  }
}
