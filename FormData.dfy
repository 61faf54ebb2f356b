/** The browser's form values, as the form handlers receive them. */
module FormData {
  import opened Wrappers

  /** A `FormDataEntryValue`: either a string or an uploaded file (known only by its name here). */
  datatype FormEntry = Text(text: string) | File(name: string)

  /** A `FormData` object: its name/value pairs in insertion order (a name may repeat). */
  type Form = seq<(string, FormEntry)>

  /** `form.get(name)`: the first value stored under `name`, or `null` (None) when there is none. */
  function Get(form: Form, name: string): (r: Option<FormEntry>)
    ensures r.None? <==> forall i :: 0 <= i < |form| ==> form[i].0 != name
    ensures r.Some? ==> exists i :: 0 <= i < |form| && form[i] == (name, r.value)
                                    && forall j :: 0 <= j < i ==> form[j].0 != name
  {
    if form == [] then None
    else if form[0].0 == name then Some(form[0].1)
    else
      var r := Get(form[1..], name);
      assert r.Some? ==> exists i :: 0 <= i < |form[1..]| && form[1..][i] == (name, r.value)
                                     && forall j :: 0 <= j < i ==> form[1..][j].0 != name;
      assert r.Some? ==> exists i :: 0 <= i < |form| && form[i] == (name, r.value)
                                     && forall j :: 0 <= j < i ==> form[j].0 != name by {
        if r.Some? {
          var i :| 0 <= i < |form[1..]| && form[1..][i] == (name, r.value)
                   && forall j :: 0 <= j < i ==> form[1..][j].0 != name;
          assert forall j :: 0 <= j < i + 1 ==> form[j].0 != name by {
            forall j | 0 <= j < i + 1 ensures form[j].0 != name {
              if j > 0 { assert form[j] == form[1..][j - 1]; }
            }
          }
        }
      }
      r
  }

  /** JavaScript truthiness of a looked-up entry: `null` and the empty string are falsy,
      every other string and every file object are truthy. */
  predicate IsTruthy(e: Option<FormEntry>)
    ensures IsTruthy(e) <==> e.Some? && (e.value.File? || e.value.text != [])
  {
    e.Some? && e.value != Text("")
  }
}
