/**
 * The part of the framework's `FieldList` the extension uses: a list of named
 * form fields that is looked up by name, grown at the front and pruned by name.
 * Only the top level of the list is modelled (composite fields are not searched).
 */
module Forms {
  import opened Wrappers

  /** A form field or action: its name and its rendered content. */
  datatype FormField = FormField(name: string, content: string)

  /** Index of the first field called `name`, if there is one. */
  function FieldIndex(items: seq<FormField>, name: string): (r: Option<nat>)
    ensures r.Some? ==> r.value < |items| && items[r.value].name == name
    ensures r.Some? ==> forall j :: 0 <= j < r.value ==> items[j].name != name
    ensures r.None? ==> forall j :: 0 <= j < |items| ==> items[j].name != name
  {
    if items == [] then None
    else if items[0].name == name then Some(0)
    else match FieldIndex(items[1..], name)
      case None => None
      case Some(i) => Some(i + 1)
  }

  /** `items` without the first field called `name`; unchanged when there is none. */
  function RemoveFirstNamed(items: seq<FormField>, name: string): (r: seq<FormField>)
    ensures FieldIndex(items, name).None? ==> r == items
    ensures FieldIndex(items, name).Some? ==>
      var i := FieldIndex(items, name).value; r == items[..i] + items[i + 1..]
  {
    if items == [] then []
    else if items[0].name == name then items[1..]
    else [items[0]] + RemoveFirstNamed(items[1..], name)
  }

  class FieldList {
    var items: seq<FormField>

    constructor (items: seq<FormField>)
      ensures this.items == items
    {
      this.items := items;
    }

    /** `fieldByName`: the first field with this name, or none. */
    function FieldByName(name: string): (r: Option<FormField>)
      reads this
      ensures r.Some? ==> r.value in items && r.value.name == name
      ensures r.None? ==> forall f :: f in items ==> f.name != name
    {
      match FieldIndex(items, name)
      case None => None
      case Some(i) => Some(items[i])
    }

    /** `unshift`: puts a field at the front. */
    method Unshift(field: FormField)
      modifies this
      ensures items == [field] + old(items)
    {
      items := [field] + items;
    }

    /** `removeByName`: drops the first field with this name. */
    method RemoveByName(name: string)
      modifies this
      ensures items == RemoveFirstNamed(old(items), name)
    {
      items := RemoveFirstNamed(items, name);
    }
  }

  /** After removing by name, the list holds one field of that name fewer and no other field is lost. */
  lemma {:induction false} RemoveFirstNamedCount(items: seq<FormField>, name: string)
    ensures |RemoveFirstNamed(items, name)| == if FieldIndex(items, name).Some? then |items| - 1 else |items|
    ensures forall f :: f in items && f.name != name ==> f in RemoveFirstNamed(items, name)
    ensures forall f :: f in RemoveFirstNamed(items, name) ==> f in items
  {
    if items != [] && items[0].name != name {
      RemoveFirstNamedCount(items[1..], name);
      assert items == [items[0]] + items[1..];
    }
  }
}
