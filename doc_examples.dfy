/**
 * The two usages in the doc comment of useURLSearchParams: a z.object with
 * a string, a number and a boolean field (zod's default policy 'strip'),
 * given two URLSearchParams built from records.
 */
module DocExamples {
  import opened Json
  import opened SearchParams
  import opened URLSearchParamsAdapter

  /** z.object({ string: z.string(), number: z.number(), boolean: z.boolean() }). */
  function DocSchema(): ObjectSchema
  {
    ObjectSchema(["string", "number", "boolean"], Strip)
  }

  /** What JSON.parse does with the raw values the examples use. */
  predicate ParsesDocValues(parse: Parser)
  {
    && parse("foo") == None
    && parse("42") == Some(JNumber(42.0))
    && parse("false") == Some(JBool(false))
  }

  /** The first example: the record handed to the schema is { string: 'foo', number: 42, boolean: false }. */
  lemma WellTypedExample(parse: Parser)
    requires ParsesDocValues(parse)
    ensures UseURLSearchParams(DocSchema(), parse, [("string", "foo"), ("number", "42"), ("boolean", "false")])
         == map["string" := Single(JString("foo")), "number" := Single(JNumber(42.0)), "boolean" := Single(JBool(false))]
  {
    var p: Params := [("string", "foo"), ("number", "42"), ("boolean", "false")];
    assert GetAll(p, "string") == ["foo"];
    assert GetAll(p, "number") == ["42"];
    assert GetAll(p, "boolean") == ["false"];
    ExampleRecord(parse, p);
  }

  /**
   * The second example: the record is { string: 42, number: false, boolean: 'foo' },
   * so each field arrives with the type zod then reports as wrong.
   */
  lemma MistypedExample(parse: Parser)
    requires ParsesDocValues(parse)
    ensures UseURLSearchParams(DocSchema(), parse, [("string", "42"), ("number", "false"), ("boolean", "foo")])
         == map["string" := Single(JNumber(42.0)), "number" := Single(JBool(false)), "boolean" := Single(JString("foo"))]
  {
    var p: Params := [("string", "42"), ("number", "false"), ("boolean", "foo")];
    assert GetAll(p, "string") == ["42"];
    assert GetAll(p, "number") == ["false"];
    assert GetAll(p, "boolean") == ["foo"];
    ExampleRecord(parse, p);
  }

  /** The record for DocSchema: exactly its three fields, each holding its own entry. */
  lemma ExampleRecord(parse: Parser, p: Params)
    ensures UseURLSearchParams(DocSchema(), parse, p)
         == map["string" := Entry(parse, p, "string"), "number" := Entry(parse, p, "number"), "boolean" := Entry(parse, p, "boolean")]
  {
    var keys := ["string", "number", "boolean"];
    assert UseURLSearchParams(DocSchema(), parse, p) == Reduce(parse, p, keys, map[]);
    ThreeFieldFold(parse, p, keys);
  }

  /** Folding over the three field names, one after the other. */
  lemma ThreeFieldFold(parse: Parser, p: Params, keys: seq<string>)
    requires keys == ["string", "number", "boolean"]
    ensures Reduce(parse, p, keys, map[])
         == map["string" := Entry(parse, p, "string"), "number" := Entry(parse, p, "number"), "boolean" := Entry(parse, p, "boolean")]
  {
    var r1 := map["string" := Entry(parse, p, "string")];
    var r2 := r1["number" := Entry(parse, p, "number")];
    assert keys[1..] == ["number", "boolean"];
    assert Reduce(parse, p, keys, map[]) == Reduce(parse, p, ["number", "boolean"], r1);
    assert ["number", "boolean"][1..] == ["boolean"];
    assert Reduce(parse, p, ["number", "boolean"], r1) == Reduce(parse, p, ["boolean"], r2);
    assert ["boolean"][1..] == [];
  }
}
