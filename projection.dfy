/**
 * Building the classifier's input: the record is projected onto the schema's
 * order, one positional value per field, and every other key is dropped.
 */
module Projection {

  import Validator

  /** The values of `record` at `fields`, in the order of `fields`. */
  function Project<V>(fields: seq<string>, record: map<string, V>): (row: seq<V>)
    requires Validator.HasAll(fields, record)
    ensures |row| == |fields|
    ensures forall i :: 0 <= i < |fields| ==> row[i] == record[fields[i]]
  {
    if fields == [] then []
    else
      assert Validator.HasAll(fields[1..], record) by {
        forall i | 0 <= i < |fields[1..]| ensures fields[1..][i] in record {
          assert fields[1..][i] == fields[i + 1];
        }
      }
      [record[fields[0]]] + Project(fields[1..], record)
  }

  /** Two records that agree on the listed fields give the same row, whatever else they hold. */
  lemma ProjectOnlyReadsFields<V>(fields: seq<string>, r1: map<string, V>, r2: map<string, V>)
    requires Validator.HasAll(fields, r1) && Validator.HasAll(fields, r2)
    requires forall i :: 0 <= i < |fields| ==> r1[fields[i]] == r2[fields[i]]
    ensures Project(fields, r1) == Project(fields, r2)
  {
  }

  /** Adding or overwriting a key outside the schema (such as `user_id`) leaves the row unchanged. */
  lemma ProjectIgnoresExtraKey<V>(fields: seq<string>, record: map<string, V>, key: string, v: V)
    requires Validator.HasAll(fields, record)
    requires key !in fields
    ensures Validator.HasAll(fields, record[key := v])
    ensures Project(fields, record[key := v]) == Project(fields, record)
  {
  }
}
