/**
  The schema inspector's mapping from the engine's raw column records to the
  descriptors `describe_table` reports.
 */
module Schema {
  import opened Storage
  import opened Envelope

  /** One record: name and type pass through, `nullable` is `not notnull`,
      `primary_key` is `bool(pk)`. */
  function ToDescriptor(c: RawColumn): ColumnDescriptor {
    ColumnDescriptor(c.name, c.declType, c.notNull == 0, c.pk != 0)
  }

  /** The whole description, one descriptor per record, in the engine's order. */
  function Describe(cols: seq<RawColumn>): (d: seq<ColumnDescriptor>)
    ensures |d| == |cols|
    ensures forall k :: 0 <= k < |cols| ==>
              && d[k].name == cols[k].name
              && d[k].declType == cols[k].declType
              && d[k].nullable == (cols[k].notNull == 0)
              && d[k].primaryKey == (cols[k].pk != 0)
  {
    if cols == [] then [] else [ToDescriptor(cols[0])] + Describe(cols[1..])
  }

  /** Describing a concatenation describes each part. */
  lemma {:induction false} DescribeAppend(a: seq<RawColumn>, b: seq<RawColumn>)
    ensures Describe(a + b) == Describe(a) + Describe(b)
  {
    if a != [] {
      assert (a + b)[1..] == a[1..] + b;
      DescribeAppend(a[1..], b);
    } else {
      assert a + b == b;
    }
  }

  /** Names of the records the engine marks as part of the primary key. */
  function KeyColumnNames(cols: seq<RawColumn>): seq<string> {
    if cols == [] then []
    else (if cols[0].pk != 0 then [cols[0].name] else []) + KeyColumnNames(cols[1..])
  }

  /** Names of the descriptors flagged `primary_key`. */
  function PrimaryKeyNames(d: seq<ColumnDescriptor>): seq<string> {
    if d == [] then []
    else (if d[0].primaryKey then [d[0].name] else []) + PrimaryKeyNames(d[1..])
  }

  /** `primary_key` is set on exactly the engine's key columns, in order. */
  lemma {:induction false} DescribeKeepsPrimaryKey(cols: seq<RawColumn>)
    ensures PrimaryKeyNames(Describe(cols)) == KeyColumnNames(cols)
  {
    if cols != [] {
      DescribeKeepsPrimaryKey(cols[1..]);
      assert Describe(cols)[1..] == Describe(cols[1..]);
    }
  }
}
