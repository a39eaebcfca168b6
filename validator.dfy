/**
 * The presence check run on a request record: the schema is walked in order and
 * the first name that is not a key of the record is reported. Values are never
 * inspected, only keys.
 */
module Validator {

  import opened Wrappers
  import Schema

  /** Every name in `fields` is a key of `record`. */
  predicate HasAll<V>(fields: seq<string>, record: map<string, V>)
  {
    forall i :: 0 <= i < |fields| ==> fields[i] in record
  }

  /** `fields[k]` is missing from `record` and every name before it is present. */
  ghost predicate IsFirstMissingAt<V>(fields: seq<string>, record: map<string, V>, k: int)
  {
    && 0 <= k < |fields|
    && fields[k] !in record
    && forall j :: 0 <= j < k ==> fields[j] in record
  }

  /** The first name of `fields`, in order, that is not a key of `record`. */
  function FirstMissing<V>(fields: seq<string>, record: map<string, V>): (missing: Option<string>)
    ensures missing.Some? ==> missing.value in fields && missing.value !in record
  {
    if fields == [] then None
    else if fields[0] !in record then Some(fields[0])
    else FirstMissing(fields[1..], record)
  }

  /** Nothing is reported exactly when every field is present. */
  lemma {:induction false} FirstMissingNoneIff<V>(fields: seq<string>, record: map<string, V>)
    ensures FirstMissing(fields, record).None? <==> HasAll(fields, record)
  {
    if fields != [] {
      FirstMissingNoneIff(fields[1..], record);
      if fields[0] in record && HasAll(fields[1..], record) {
        forall i | 0 <= i < |fields| ensures fields[i] in record {
          if i > 0 { assert fields[i] == fields[1..][i - 1]; }
        }
      }
    }
  }

  /** A missing field at position k that has no missing field before it is the one reported. */
  lemma {:induction false} FirstMissingAt<V>(fields: seq<string>, record: map<string, V>, k: int)
    requires IsFirstMissingAt(fields, record, k)
    ensures FirstMissing(fields, record) == Some(fields[k])
  {
    if k > 0 {
      assert fields[0] in record;
      FirstMissingAt(fields[1..], record, k - 1);
    }
  }

  /** A reported field is in the schema, absent from the record, and the first such. */
  lemma {:induction false} FirstMissingIsFirst<V>(fields: seq<string>, record: map<string, V>)
    requires FirstMissing(fields, record).Some?
    ensures exists k :: IsFirstMissingAt(fields, record, k)
                          && fields[k] == FirstMissing(fields, record).value
  {
    if fields[0] in record {
      FirstMissingIsFirst(fields[1..], record);
      var k :| IsFirstMissingAt(fields[1..], record, k)
                && fields[1..][k] == FirstMissing(fields[1..], record).value;
      assert IsFirstMissingAt(fields, record, k + 1);
    } else {
      assert IsFirstMissingAt(fields, record, 0);
    }
  }

  /** Only the presence of the listed names matters: keys outside `fields` are ignored. */
  lemma {:induction false} FirstMissingOnlyReadsFields<V>(
    fields: seq<string>, r1: map<string, V>, r2: map<string, V>)
    requires forall i :: 0 <= i < |fields| ==> (fields[i] in r1 <==> fields[i] in r2)
    ensures FirstMissing(fields, r1) == FirstMissing(fields, r2)
  {
    if fields != [] {
      assert fields[0] in r1 <==> fields[0] in r2;
      FirstMissingOnlyReadsFields(fields[1..], r1, r2);
    }
  }

  /**
   * The request handler's validation loop: walks the schema in order and returns
   * the first field the record lacks, or None when all are present.
   */
  method Validate<V>(record: map<string, V>) returns (missing: Option<string>)
    ensures missing == FirstMissing(Schema.Features, record)
    ensures missing.None? <==> HasAll(Schema.Features, record)
    ensures missing.Some? ==>
              exists k :: IsFirstMissingAt(Schema.Features, record, k)
                          && Schema.Features[k] == missing.value
  {
    var i := 0;
    while i < |Schema.Features|
      invariant 0 <= i <= |Schema.Features|
      invariant forall j :: 0 <= j < i ==> Schema.Features[j] in record
    {
      var f := Schema.Features[i];
      if f !in record {
        assert IsFirstMissingAt(Schema.Features, record, i);
        FirstMissingAt(Schema.Features, record, i);
        return Some(f);
      }
      i := i + 1;
    }
    FirstMissingNoneIff(Schema.Features, record);
    return None;
  }
}
