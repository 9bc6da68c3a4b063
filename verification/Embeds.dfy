/** Embeds and their length, as the webhook queue and Discord's limits count it. */
module Embeds {

  datatype Field = Field(name: string, value: string)

  datatype Embed = Embed(title: string, description: string, author: string, footer: string, fields: seq<Field>)

  datatype File = File(name: string, content: string)

  /** Discord's developer documentation, "Embed Limits": characters in all embeds of a message, and in a field value. */
  const TOTAL_LIMIT: nat := 6000
  const VALUE_LIMIT: nat := 1024

  function FieldsLength(fields: seq<Field>): nat {
    if fields == [] then 0 else |fields[0].name| + |fields[0].value| + FieldsLength(fields[1..])
  }

  function Length(e: Embed): nat {
    |e.title| + |e.description| + |e.author| + |e.footer| + FieldsLength(e.fields)
  }

  function TotalLength(es: seq<Embed>): nat {
    if es == [] then 0 else TotalLength(es[..|es| - 1]) + Length(es[|es| - 1])
  }

  lemma {:induction false} FieldsLengthAppend(a: seq<Field>, b: seq<Field>)
    ensures FieldsLength(a + b) == FieldsLength(a) + FieldsLength(b)
  {
    if a == [] {
      assert a + b == b;
    } else {
      assert (a + b)[1..] == a[1..] + b;
      FieldsLengthAppend(a[1..], b);
    }
  }
}
