/**
 * The record merge of the export loop: an API record's id, its field map
 * and its creation time become one flat dict, merged left to right from
 * `airtable_id`, the fields, then `airtable_createdTime`.
 */
module Records {
  import opened Wrappers
  import opened Values

  const IdKey := "airtable_id"
  const CreatedTimeKey := "airtable_createdTime"

  /** One element of a page's `records`: its `id`, its `fields` and its `createdTime`. */
  datatype RawRecord = RawRecord(id: string, fields: Dict, createdTime: string)

  /**
   * The flat record: the id entry first, then each field in order (a field
   * named `airtable_id` replaces the id's value in place), then the creation
   * time (which replaces a field named `airtable_createdTime`).
   */
  function Flatten(r: RawRecord): Dict
  {
    Put(Update([(IdKey, Str(r.id))], r.fields), CreatedTimeKey, Str(r.createdTime))
  }

  /**
   * Key precedence: the real creation time always wins; a field named
   * `airtable_id` wins over the real id; every other field keeps its value.
   */
  lemma FlattenValues(r: RawRecord, k: string)
    requires Distinct(r.fields)
    ensures Lookup(Flatten(r), CreatedTimeKey) == Some(Str(r.createdTime))
    ensures Lookup(Flatten(r), IdKey)
              == if IdKey in Keys(r.fields) then Lookup(r.fields, IdKey) else Some(Str(r.id))
    ensures k != IdKey && k != CreatedTimeKey ==> Lookup(Flatten(r), k) == Lookup(r.fields, k)
  {
    UpdateLookup([(IdKey, Str(r.id))], r.fields, IdKey);
    UpdateLookup([(IdKey, Str(r.id))], r.fields, k);
  }

  /**
   * The keys of a flat record: exactly `airtable_id`, `airtable_createdTime`
   * and the field names, without repetition; `airtable_id` comes first, the
   * fields follow in order, and `airtable_createdTime` comes last unless a
   * field of that name already holds its place.
   */
  lemma FlattenKeys(r: RawRecord)
    requires Distinct(r.fields)
    ensures Distinct(Flatten(r))
    ensures Keys(Flatten(r))
              == [IdKey] + NewKeys(Keys(r.fields), [IdKey])
                 + (if CreatedTimeKey in Keys(r.fields) then [] else [CreatedTimeKey])
  {
    var start: Dict := [(IdKey, Str(r.id))];
    var merged := Update(start, r.fields);
    UpdateKeys(start, r.fields);
    UpdateDistinct(start, r.fields);
    assert Keys(start) == [IdKey];
    assert Keys(merged) == [IdKey] + NewKeys(Keys(r.fields), [IdKey]);
    NewKeysMember(Keys(r.fields), [IdKey], CreatedTimeKey);
    assert CreatedTimeKey in Keys(merged) <==> CreatedTimeKey in Keys(r.fields);
  }

  /** A key is in a flat record exactly when it is `airtable_id`, `airtable_createdTime` or a field name. */
  lemma FlattenHasKey(r: RawRecord, k: string)
    requires Distinct(r.fields)
    ensures k in Keys(Flatten(r)) <==> k == IdKey || k == CreatedTimeKey || k in Keys(r.fields)
  {
    FlattenKeys(r);
    NewKeysMember(Keys(r.fields), [IdKey], k);
  }
}
