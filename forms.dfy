/**
 * The error objects of the web forms: a validator assigns `errors[field] = message` field by
 * field, each field's rule being "required" first and then a format or range check, and the
 * form is valid exactly when nothing was assigned.
 */
module Forms {
  import opened Wrappers

  /** One `errors[key] = message` step of a validator, taken when `value` is Some. */
  datatype Assignment<K, E> = Assignment(key: K, value: Option<E>)

  /** The object a run of assignments leaves, a later assignment to a key winning. */
  function Recorded<K(==), E>(steps: seq<Assignment<K, E>>): (r: map<K, E>)
  {
    if steps == [] then map[]
    else
      var rest := Recorded(steps[1..]);
      if steps[0].value.Some? && steps[0].key !in rest then rest[steps[0].key := steps[0].value.value]
      else rest
  }

  /** A key is recorded exactly when some step assigns to it. */
  lemma {:induction false} RecordedHas<K, E>(steps: seq<Assignment<K, E>>, k: K)
    ensures k in Recorded(steps) <==> Assigns(steps, k)
  {
    if steps != [] {
      RecordedHas(steps[1..], k);
      assert forall i :: 1 <= i < |steps| ==> steps[1..][i - 1] == steps[i];
      if k in Recorded(steps[1..]) {
        var i :| 0 <= i < |steps| - 1 && steps[1..][i].key == k && steps[1..][i].value.Some?;
        assert steps[i + 1].key == k;
      }
    }
  }

  /** Nothing is recorded exactly when no step assigns. */
  lemma {:induction false} RecordedEmpty<K, E>(steps: seq<Assignment<K, E>>)
    ensures Recorded(steps) == map[] <==> Unassigned(steps)
  {
    if steps != [] {
      RecordedEmpty(steps[1..]);
      assert forall i :: 1 <= i < |steps| ==> steps[1..][i - 1] == steps[i];
      if steps[0].value.Some? {
        assert steps[0].key in Recorded(steps);
      }
    }
  }

  /** The value recorded for a key is that of its last assigning step. */
  lemma {:induction false} RecordedLast<K, E>(steps: seq<Assignment<K, E>>, i: int)
    requires 0 <= i < |steps| && steps[i].value.Some?
    requires forall j :: i < j < |steps| ==> steps[j].key != steps[i].key || steps[j].value.None?
    ensures steps[i].key in Recorded(steps) && Recorded(steps)[steps[i].key] == steps[i].value.value
  {
    assert forall j :: 1 <= j < |steps| ==> steps[1..][j - 1] == steps[j];
    if i == 0 {
      RecordedHas(steps[1..], steps[0].key);
    } else {
      RecordedLast(steps[1..], i - 1);
    }
  }

  predicate Assigns<K(==), E>(steps: seq<Assignment<K, E>>, k: K) {
    exists i :: 0 <= i < |steps| && steps[i].key == k && steps[i].value.Some?
  }

  predicate Unassigned<K, E>(steps: seq<Assignment<K, E>>) {
    forall i :: 0 <= i < |steps| ==> steps[i].value.None?
  }

  /**
   * The message a field gets: `errors` holds '' once the user edits a field with an error,
   * which reads as no error.
   */
  datatype Issue = Cleared | Required | Invalid

  /** The if / else-if pair of one field: required first, then the format or range check. */
  function Rule<K>(f: K, blank: bool, bad: bool): (r: Assignment<K, Issue>)
    ensures r.key == f
    ensures r.value.None? <==> !blank && !bad
    ensures r.value == Some(Required) <==> blank
  {
    Assignment(f, if blank then Some(Required) else if bad then Some(Invalid) else None)
  }

  lemma UnassignedParts<K, E>(a: seq<Assignment<K, E>>, b: seq<Assignment<K, E>>, d: seq<Assignment<K, E>>)
    ensures Unassigned(a + b + d) <==> Unassigned(a) && Unassigned(b) && Unassigned(d)
  {
    var s := a + b + d;
    assert forall i :: 0 <= i < |a| ==> s[i] == a[i];
    assert forall i :: 0 <= i < |b| ==> s[|a| + i] == b[i];
    assert forall i :: 0 <= i < |d| ==> s[|a| + |b| + i] == d[i];
  }

  /** A key recorded by a run of three parts is assigned by one of them. */
  lemma AssignedInParts<K, E>(a: seq<Assignment<K, E>>, b: seq<Assignment<K, E>>,
                              d: seq<Assignment<K, E>>, k: K)
    ensures k in Recorded(a + b + d) ==> Assigns(a, k) || Assigns(b, k) || Assigns(d, k)
  {
    var s := a + b + d;
    RecordedHas(s, k);
    if k in Recorded(s) {
      var i :| 0 <= i < |s| && s[i].key == k && s[i].value.Some?;
      if i < |a| {
        assert s[i] == a[i];
      } else if i < |a| + |b| {
        assert s[i] == b[i - |a|];
      } else {
        assert s[i] == d[i - |a| - |b|];
      }
    }
  }
}
