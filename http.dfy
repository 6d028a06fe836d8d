/**
 * What the route handlers share: the responses they answer with and the
 * check of a request's required fields, which walks the field names in
 * order and rejects the request at the first one whose value is falsy.
 */
module Http {
  import opened Wrappers

  /** An HTTP response: 200 with a body, 400 with a message, 404, or 500. */
  datatype Response<T> = Ok(body: T) | BadRequest(message: string) | NotFound | ServerError

  /** A string value JavaScript treats as true: present and non-empty. */
  predicate Truthy(v: Option<string>)
  {
    v.Some? && v.value != ""
  }

  /** The position of the first field for which `present` fails, or the
      number of fields when it holds for all of them. */
  function FirstMissing<F>(fields: seq<F>, present: F -> bool): (r: nat)
    ensures r <= |fields|
    ensures forall k :: 0 <= k < r ==> present(fields[k])
    ensures r < |fields| ==> !present(fields[r])
  {
    if |fields| == 0 then 0
    else if !present(fields[0]) then 0
    else 1 + FirstMissing(fields[1..], present)
  }

  /** The first missing field is the one that fails after all before it
      hold. */
  lemma FirstMissingIs<F>(fields: seq<F>, present: F -> bool, m: nat)
    requires m <= |fields| && forall k :: 0 <= k < m ==> present(fields[k])
    requires m < |fields| ==> !present(fields[m])
    ensures FirstMissing(fields, present) == m
  {
  }

  /** `for (const field of requiredFields) if (!body[field]) return ...`:
      the loop stops at the first field that is not present. */
  method FindMissing<F>(fields: seq<F>, present: F -> bool) returns (m: nat)
    ensures m == FirstMissing(fields, present)
  {
    m := 0;
    while m < |fields|
      invariant m <= |fields|
      invariant FirstMissing(fields, present) == m + FirstMissing(fields[m..], present)
    {
      assert fields[m..][1..] == fields[m + 1..];
      if !present(fields[m]) {
        return;
      }
      m := m + 1;
    }
  }

  /** The message of the 400 answer for a missing field. */
  function RequiredMessage(field: string): (r: string)
    ensures |r| == |field| + 12 && r[..|field|] == field
  {
    field + " is required"
  }
}
