/** Small datatypes shared by the models. */
module Common {

  datatype Option<+T> = None | Some(value: T)

  datatype Outcome<+E> = Pass | Fail(error: E)

  /** Discord identifiers. */
  type Snowflake = nat

  const NULL_SNOWFLAKE: Snowflake := 0xFFFF_FFFF_FFFF_FFFF

  /** A snowflake names something unless it is zero or the null snowflake. */
  predicate IsValid(id: Snowflake) {
    id != 0 && id != NULL_SNOWFLAKE
  }

  /** Empty content is stored as "None". */
  function OrNone(content: string): string {
    if content == "" then "None" else content
  }

  method Element<T(==)>(s: set<T>) returns (x: T)
    requires s != {}
    ensures x in s
  {
    x :| x in s;
  }

  lemma SubsetSize<T>(a: set<T>, b: set<T>)
    requires a <= b
    ensures |a| <= |b|
  {
    assert b == a + (b - a);
  }

  lemma SmallerSet<T>(a: set<T>, b: set<T>, x: T)
    requires a <= b && x in b && x !in a
    ensures |a| < |b|
  {
    assert b == {x} + (b - {x});
    SubsetSize(a, b - {x});
  }

  lemma AppendCons<T>(a: seq<T>, x: T, b: seq<T>)
    ensures a + ([x] + b) == a + [x] + b && ([x] + b)[1..] == b
  {
  }
}
