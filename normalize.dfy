/** The key-value supplier's value encoder (`Dynamo._encode`): numbers become
    exact decimals built from their text and timestamps become
    `YYYY-MM-DD HH:MM:SS` strings, before any record reaches the store. */
module Normalize {
  import opened Text
  import opened Values

  /** The value `_encode` leaves in a cell that held `v`. */
  function EncodeValue(v: Value): Value {
    match v
    case Int(n) => Decimal(IntText(n))
    case Float(text) => Decimal(text)
    case Timestamp(t) => Str(FormatTimestamp(t))
    case _ => v
  }

  /** A value the store accepts as it is: neither a binary number nor a
      timestamp. */
  predicate IsWire(v: Value) {
    !v.Int? && !v.Float? && !v.Timestamp?
  }

  predicate IsWireRecord(item: Record) {
    forall k :: k in item ==> IsWire(item[k])
  }

  /** The record `_encode` leaves: every cell encoded, the same columns. */
  function EncodeRecord(item: Record): Record {
    map k | k in item :: EncodeValue(item[k])
  }

  /** `Dynamo._encode`: visits the record's columns one at a time (in no
      particular order, as a Python 2 dict does) and rewrites each numeric or
      timestamp cell in place. */
  method Encode(item: Record) returns (encoded: Record)
    ensures encoded == EncodeRecord(item)
  {
    encoded := item;
    var pending := item.Keys;
    while pending != {}
      invariant pending <= item.Keys
      invariant encoded.Keys == item.Keys
      invariant forall k :: k in item && k !in pending ==> encoded[k] == EncodeValue(item[k])
      invariant forall k :: k in pending ==> encoded[k] == item[k]
      decreases pending
    {
      var k :| k in pending;
      var v := item[k];
      if v.Int? {
        encoded := encoded[k := Decimal(IntText(v.n))];
      } else if v.Float? {
        encoded := encoded[k := Decimal(v.text)];
      } else if v.Timestamp? {
        encoded := encoded[k := Str(FormatTimestamp(v.t))];
      }
      pending := pending - {k};
    }
  }

  /** Encodes each record of a list, in order. */
  method EncodeAll(records: seq<Record>) returns (items: seq<Record>)
    ensures |items| == |records|
    ensures forall i :: 0 <= i < |records| ==> items[i] == EncodeRecord(records[i])
  {
    items := [];
    var i := 0;
    while i < |records|
      invariant 0 <= i <= |records|
      invariant |items| == i
      invariant forall j :: 0 <= j < i ==> items[j] == EncodeRecord(records[j])
    {
      var item := Encode(records[i]);
      items := items + [item];
      i := i + 1;
    }
  }

  /** What each kind of cell becomes: an integer becomes the decimal of its
      text, which denotes the same number; a float becomes the decimal of its
      text; a timestamp becomes its text to the second; every other value is
      kept. */
  lemma EncodeValueKinds(v: Value)
    ensures v.Int? ==> EncodeValue(v).Decimal? && ParseInt(EncodeValue(v).text) == v.n
    ensures v.Float? ==> EncodeValue(v) == Decimal(v.text)
    ensures v.Timestamp? ==>
              EncodeValue(v).Str? && ParseTimestamp(EncodeValue(v).s) == v.t.(nanosecond := 0)
    ensures IsWire(v) ==> EncodeValue(v) == v
  {
    if v.Int? {
      IntTextExact(v.n);
    } else if v.Timestamp? {
      TimestampTextRoundTrip(v.t);
    }
  }

  /** Encoding keeps the record's columns, leaves only store-ready values, and
      a record is left unchanged exactly when it holds only such values. */
  lemma EncodeRecordWire(item: Record)
    ensures EncodeRecord(item).Keys == item.Keys
    ensures IsWireRecord(EncodeRecord(item))
    ensures EncodeRecord(item) == item <==> IsWireRecord(item)
  {
    var r := EncodeRecord(item);
    if r == item {
      forall k | k in item ensures IsWire(item[k]) {
        assert r[k] == EncodeValue(item[k]);
      }
    }
  }

  /** Encoding twice is encoding once. */
  lemma EncodeIdempotent(item: Record)
    ensures EncodeRecord(EncodeRecord(item)) == EncodeRecord(item)
  {
    EncodeRecordWire(item);
    EncodeRecordWire(EncodeRecord(item));
  }
}
