/**
 * The form's submit handler: turn the contacts field into a list, then update
 * the record named by the hidden `_id` field, or add a new record when it is empty.
 */
module Controller {
  import opened Js
  import opened Items
  import opened Menus
  import opened FormText

  datatype SubmitError =
    | ContactsNotText           // `data.contacts.split` on a missing or multi-valued field throws
    | Rejected(error: MenuError) // the collection refused the add or the update

  /** `data.contacts = data.contacts.split(",").map(item => item.trim())`. */
  function SplitContacts(data: map<string, Value>): (r: Result<map<string, Value>, SubmitError>)
    ensures r.Err? <==> !Get(data, "contacts").Str?
    ensures r.Ok? ==>
      && r.value.Keys == data.Keys
      && (forall key :: key in data && key != "contacts" ==> r.value[key] == data[key])
      && r.value["contacts"] == List(SplitTrim(data["contacts"].s))
  {
    match Get(data, "contacts")
    case Str(s) => Ok(data["contacts" := List(SplitTrim(s))])
    case _ => Err(ContactsNotText)
  }

  function Lift<T>(r: Result<T, MenuError>): Result<T, SubmitError>
  {
    match r
    case Ok(v) => Ok(v)
    case Err(e) => Err(Rejected(e))
  }

  /**
   * The submit handler, given the form's fields as `serialize` returns them:
   * after the contacts split, a truthy `_id` sends the data to `updateItem`,
   * otherwise `_id` is deleted and the data goes to `addItem`.
   */
  method Submit(menu: Menu, data: map<string, Value>, rng: Rng) returns (r: Result<MenuItem, SubmitError>)
    requires menu.Valid()
    modifies menu, rng
    ensures menu.Valid()
    ensures SplitContacts(data).Err? ==>
      r == Err(ContactsNotText) && menu.items == old(menu.items) && rng.calls == old(rng.calls)
    ensures SplitContacts(data).Ok? && Truthy(Get(data, "_id")) ==>
      var c := Updated(old(menu.items), Get(data, "_id"), Obj(SplitContacts(data).value), IdAt(rng.draw, old(rng.calls)));
      r == Lift(c.result) && menu.items == c.items
    ensures SplitContacts(data).Ok? && !Truthy(Get(data, "_id")) ==>
      var c := Added(old(menu.items), Obj(SplitContacts(data).value - {"_id"}), IdAt(rng.draw, old(rng.calls)));
      r == Lift(c.result) && menu.items == c.items
    ensures rng.calls == old(rng.calls) + (if r.Ok? then IdDigits else 0)
  {
    var split := SplitContacts(data);
    if split.Err? {
      return Err(ContactsNotText);
    }
    var fields := split.value;
    assert Get(fields, "_id") == Get(data, "_id");
    if Truthy(Get(fields, "_id")) {
      var u := menu.UpdateItem(Get(fields, "_id"), Obj(fields), rng);
      r := Lift(u);
    } else {
      var a := menu.AddItem(Obj(fields - {"_id"}), rng);
      r := Lift(a);
    }
  }

  /**
   * Editing a record and submitting the form unchanged gives its contacts back,
   * provided the list is non-empty and no contact has a comma or surrounding
   * white space.
   */
  lemma EditSubmitKeepsContacts(data: map<string, Value>, xs: seq<string>)
    requires |xs| >= 1
    requires forall k :: 0 <= k < |xs| ==> ',' !in xs[k] && Trimmed(xs[k])
    requires Get(data, "contacts") == Str(FieldText(List(xs)))
    ensures SplitContacts(data).Ok? && SplitContacts(data).value["contacts"] == List(xs)
  {
    ContactsRoundTrip(xs);
  }

  /** A record with no contacts comes back from an edit with one empty contact. */
  lemma EditSubmitBlanksEmptyContacts(data: map<string, Value>)
    requires Get(data, "contacts") == Str(FieldText(List([])))
    ensures SplitContacts(data).Ok? && SplitContacts(data).value["contacts"] == List([""])
  {
    EmptyContactsComeBackBlank();
  }
}
