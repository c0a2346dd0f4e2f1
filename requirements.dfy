/**
 * A reference definition of field-presence validation: a request is checked
 * against a list of required fields in a fixed order, and the first field that
 * is absent is the one reported.
 */
module Requirements {
  import opened Wrappers

  /** The request fields the boundary insists on. */
  datatype Field = Email | Password | AppId | UserId

  /** One required field together with whether the request carries it. */
  datatype Requirement = Requirement(field: Field, present: bool)

  /** The position of the first absent field, or |cs| when every field is present. */
  function FirstAbsent(cs: seq<Requirement>): (k: nat)
    ensures k <= |cs|
    ensures forall j :: 0 <= j < k ==> cs[j].present
    ensures k < |cs| ==> !cs[k].present
    decreases |cs|
  {
    if cs == [] then 0
    else if !cs[0].present then 0
    else 1 + FirstAbsent(cs[1..])
  }

  /** The field that validation reports: the first absent one, if any. */
  function MissingField(cs: seq<Requirement>): (r: Option<Field>)
    ensures r.None? <==> forall j :: 0 <= j < |cs| ==> cs[j].present
    ensures r.Some? ==> exists k :: 0 <= k < |cs| && cs[k].field == r.value && !cs[k].present
                                    && forall j :: 0 <= j < k ==> cs[j].present
  {
    var k := FirstAbsent(cs);
    if k < |cs| then Some(cs[k].field) else None
  }

  /** Checking `a` and then `b` reports `a`'s missing field if it has one, and `b`'s otherwise. */
  lemma {:induction false} FirstAbsentAppend(a: seq<Requirement>, b: seq<Requirement>)
    ensures FirstAbsent(a + b) == if FirstAbsent(a) < |a| then FirstAbsent(a) else |a| + FirstAbsent(b)
    decreases |a|
  {
    if a == [] {
      assert a + b == b;
    } else if a[0].present {
      assert (a + b)[1..] == a[1..] + b;
      FirstAbsentAppend(a[1..], b);
    }
  }

  lemma MissingFieldAppend(a: seq<Requirement>, b: seq<Requirement>)
    ensures MissingField(a + b) == if MissingField(a).Some? then MissingField(a) else MissingField(b)
  {
    FirstAbsentAppend(a, b);
    var k := FirstAbsent(a);
    if k < |a| {
      assert (a + b)[k] == a[k];
    } else {
      var m := FirstAbsent(b);
      if m < |b| {
        assert (a + b)[|a| + m] == b[m];
      }
    }
  }
}
