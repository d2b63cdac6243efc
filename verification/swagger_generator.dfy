/**
 * The Swagger comment generator: it turns the route table (path -> method ->
 * operation config) into `@swagger` JSDoc comments, one per operation.
 *
 * A JavaScript object is enumerated in its own property order (integer-like
 * keys such as response codes ascending, then the others in insertion
 * order); every object the generator walks is given here as the sequence of
 * its entries in that order. A field that JavaScript tests for truthiness is
 * an Option: None is undefined, and the empty string and the number 0 count
 * as absent where the generator tests the field.
 */
module SwaggerGenerator {
  import opened Common
  import Text

  /** One query or path parameter. */
  datatype Param = Param(
    location: string,
    name: string,
    required: bool,
    typeName: string,
    minimum: Option<int>,
    enumValues: Option<seq<string>>,
    format: Option<string>,
    description: string)

  /** One property of the JSON request body. */
  datatype Property = Property(
    typeName: string,
    minimum: Option<int>,
    minLength: Option<int>,
    maxLength: Option<int>,
    format: Option<string>,
    enumValues: Option<seq<string>>,
    description: string)

  /** `requestBody`: its `required` flag, and the `application/json` schema's required list and properties. */
  datatype RequestBody = RequestBody(
    required: Option<bool>,
    schemaRequired: Option<seq<string>>,
    properties: seq<(string, Property)>)

  /** One response: its description and, when it has a schema, the schema's `$ref`. */
  datatype Response = Response(description: string, schemaRef: Option<string>)

  /** The configuration of one operation; `security` lists the keys of each requirement object. */
  datatype RouteConfig = RouteConfig(
    summary: Option<string>,
    tags: Option<seq<string>>,
    security: Option<seq<seq<string>>>,
    parameters: Option<seq<Param>>,
    requestBody: Option<RequestBody>,
    responses: Option<seq<(string, Response)>>)

  /** One path of the route table with its operations, method name first. */
  datatype PathEntry = PathEntry(path: string, methods: seq<(string, RouteConfig)>)

  /** The route table, path by path. */
  type RouteTable = seq<PathEntry>

  // --------------------------------------------------------------- truthiness

  predicate TruthyText(o: Option<string>) {
    o.Some? && o.value != ""
  }

  predicate TruthyNumber(o: Option<int>) {
    o.Some? && o.value != 0
  }

  /** `${b}` for a boolean that may be undefined. */
  function FlagText(o: Option<bool>): string {
    if o.None? then "undefined" else if o.value then "true" else "false"
  }

  // ---------------------------------------------------------------- fragments

  const Nl := "\n"
  const KeyEnd := ":\n"
  const ListSep := ", "
  const ListEnd := "]\n"
  const OpenComment := "/**\n * @swagger\n * "
  const PathEnd := ":\n *   "
  const CloseComment := " */"
  const SummaryKey := " *     summary: "
  const TagsKey := " *     tags: ["
  const SecurityKey := " *     security:\n *       - "
  const SecuritySep := "\n *       - "
  const ParametersKey := " *     parameters:\n"
  const ParamIn := " *       - in: "
  const ParamName := " *         name: "
  const ParamRequired := " *         required: true\n"
  const ParamSchema := " *         schema:\n"
  const ParamType := " *           type: "
  const ParamMinimum := " *           minimum: "
  const ParamEnum := " *           enum: ["
  const ParamFormat := " *           format: "
  const ParamDescription := " *         description: "
  const BodyKey := " *     requestBody:\n"
  const BodyRequired := " *       required: "
  const BodyContent := " *       content:\n"
  const BodyJson := " *         application/json:\n"
  const BodySchema := " *           schema:\n"
  const BodyObject := " *             type: object\n"
  const BodyRequiredList := " *             required:\n"
  const BodyRequiredItem := " *               - "
  const BodyProperties := " *             properties:\n"
  const PropIndent := " *               "
  const PropType := " *                 type: "
  const PropMinimum := " *                 minimum: "
  const PropMinLength := " *                 minLength: "
  const PropMaxLength := " *                 maxLength: "
  const PropFormat := " *                 format: "
  const PropEnum := " *                 enum: ["
  const PropDescription := " *                 description: "
  const ResponsesKey := " *     responses:\n"
  const CodeIndent := " *       "
  const ResponseDescription := " *         description: "
  const RefContent := " *         content:\n"
  const RefJson := " *           application/json:\n"
  const RefSchema := " *             schema:\n"
  const RefKey := " *               $ref: '"
  const RefEnd := "'\n"

  // ---------------------------------------------------------------- sections
  //
  // Each section is written as what it appends to the comment built so far,
  // fragment by fragment in the generator's own order.

  /** The first four lines of every comment. */
  function Header(path: string, verb: string): string {
    OpenComment + path + PathEnd + verb + KeyEnd
  }

  /** The summary line, only for a truthy summary. */
  function AddSummary(acc: string, summary: Option<string>): (r: string)
    ensures acc <= r
  {
    if TruthyText(summary) then acc + SummaryKey + summary.value + Nl else acc
  }

  /** The tags line, the tags joined by ", ", only when there are tags. */
  function AddTags(acc: string, tags: Option<seq<string>>): (r: string)
    ensures acc <= r
  {
    if tags.Some? then acc + TagsKey + Text.Join(tags.value, ListSep) + ListEnd else acc
  }

  /** `Object.keys(s)[0] + ": []"`; a requirement object without keys reads as undefined. */
  function SecurityItem(keys: seq<string>): string {
    (if keys == [] then "undefined" else keys[0]) + ": []"
  }

  function SecurityItems(reqs: seq<seq<string>>): (r: seq<string>)
    ensures |r| == |reqs|
    ensures forall i :: 0 <= i < |reqs| ==> r[i] == SecurityItem(reqs[i])
  {
    seq(|reqs|, i requires 0 <= i < |reqs| => SecurityItem(reqs[i]))
  }

  /** The security block, one item per requirement, only when security is given. */
  function AddSecurity(acc: string, security: Option<seq<seq<string>>>): (r: string)
    ensures acc <= r
  {
    if security.Some? then acc + SecurityKey + Text.Join(SecurityItems(security.value), SecuritySep) + Nl else acc
  }

  /** A parameter's location, name, required flag, schema and type lines. */
  function AddParamHead(acc: string, p: Param): (r: string)
    ensures acc <= r
  {
    var a1 := acc + ParamIn + p.location + Nl;
    var a2 := a1 + ParamName + p.name + Nl;
    var a3 := if p.required then a2 + ParamRequired else a2;
    var a4 := a3 + ParamSchema;
    a4 + ParamType + p.typeName + Nl
  }

  /** A parameter's minimum and enum lines, each only when present. */
  function AddParamChecks(acc: string, p: Param): (r: string)
    ensures acc <= r
  {
    var a1 := if TruthyNumber(p.minimum) then acc + ParamMinimum + Text.IntToString(p.minimum.value) + Nl else acc;
    if p.enumValues.Some? then a1 + ParamEnum + Text.Join(p.enumValues.value, ListSep) + ListEnd else a1
  }

  /** A parameter's format line, only when present, and its description line. */
  function AddParamTail(acc: string, p: Param): (r: string)
    ensures acc <= r
  {
    var a1 := if TruthyText(p.format) then acc + ParamFormat + p.format.value + Nl else acc;
    a1 + ParamDescription + p.description + Nl
  }

  /** The lines of one parameter. */
  function AddParam(acc: string, p: Param): (r: string)
    ensures acc <= r
  {
    AddParamTail(AddParamChecks(AddParamHead(acc, p), p), p)
  }

  /** The parameters' lines, one parameter after the other. */
  function AddParams(acc: string, ps: seq<Param>): (r: string)
    ensures acc <= r
  {
    if ps == [] then acc else AddParam(AddParams(acc, ps[..|ps| - 1]), ps[|ps| - 1])
  }

  /** The parameters block, only for a non-empty parameter list. */
  function AddParameters(acc: string, parameters: Option<seq<Param>>): (r: string)
    ensures acc <= r
  {
    if parameters.Some? && |parameters.value| > 0 then AddParams(acc + ParametersKey, parameters.value) else acc
  }

  /** One line per required field of the body schema. */
  function AddRequiredFields(acc: string, fields: seq<string>): (r: string)
    ensures acc <= r
  {
    if fields == [] then acc
    else AddRequiredFields(acc, fields[..|fields| - 1]) + BodyRequiredItem + fields[|fields| - 1] + Nl
  }

  /** A property's key and type lines, and its minimum line when present. */
  function AddPropertyHead(acc: string, key: string, v: Property): (r: string)
    ensures acc <= r
  {
    var a1 := acc + PropIndent + key + KeyEnd;
    var a2 := a1 + PropType + v.typeName + Nl;
    if TruthyNumber(v.minimum) then a2 + PropMinimum + Text.IntToString(v.minimum.value) + Nl else a2
  }

  /** A property's minLength and maxLength lines, each only when present. */
  function AddPropertyLengths(acc: string, v: Property): (r: string)
    ensures acc <= r
  {
    var a1 := if TruthyNumber(v.minLength) then acc + PropMinLength + Text.IntToString(v.minLength.value) + Nl else acc;
    if TruthyNumber(v.maxLength) then a1 + PropMaxLength + Text.IntToString(v.maxLength.value) + Nl else a1
  }

  /** A property's format and enum lines, each only when present, and its description line. */
  function AddPropertyTail(acc: string, v: Property): (r: string)
    ensures acc <= r
  {
    var a1 := if TruthyText(v.format) then acc + PropFormat + v.format.value + Nl else acc;
    var a2 := if v.enumValues.Some? then a1 + PropEnum + Text.Join(v.enumValues.value, ListSep) + ListEnd else a1;
    a2 + PropDescription + v.description + Nl
  }

  /** The lines of one body property. */
  function AddProperty(acc: string, key: string, v: Property): (r: string)
    ensures acc <= r
  {
    AddPropertyTail(AddPropertyLengths(AddPropertyHead(acc, key, v), v), v)
  }

  function AddProperties(acc: string, props: seq<(string, Property)>): (r: string)
    ensures acc <= r
  {
    if props == [] then acc
    else AddProperty(AddProperties(acc, props[..|props| - 1]), props[|props| - 1].0, props[|props| - 1].1)
  }

  /** The request body's fixed lines, up to its schema's `type: object`. */
  function AddBodyHeader(acc: string, b: RequestBody): (r: string)
    ensures acc <= r
  {
    var a1 := acc + BodyKey;
    var a2 := a1 + BodyRequired + FlagText(b.required) + Nl;
    var a3 := a2 + BodyContent;
    var a4 := a3 + BodyJson;
    var a5 := a4 + BodySchema;
    a5 + BodyObject
  }

  /** The request body block, only when there is a request body. */
  function AddRequestBody(acc: string, body: Option<RequestBody>): (r: string)
    ensures acc <= r
  {
    if body.None? then acc
    else
      var b := body.value;
      var a1 := AddBodyHeader(acc, b);
      var a2 := if b.schemaRequired.Some? then AddRequiredFields(a1 + BodyRequiredList, b.schemaRequired.value) else a1;
      AddProperties(a2 + BodyProperties, b.properties)
  }

  /** The lines of one response: its code and description, then its schema reference if it has one. */
  function AddResponse(acc: string, code: string, resp: Response): (r: string)
    ensures acc <= r
  {
    var a1 := acc + CodeIndent + code + KeyEnd;
    var a2 := a1 + ResponseDescription + resp.description + Nl;
    if resp.schemaRef.Some? then a2 + RefContent + RefJson + RefSchema + RefKey + resp.schemaRef.value + RefEnd
    else a2
  }

  function AddResponses(acc: string, rs: seq<(string, Response)>): (r: string)
    ensures acc <= r
  {
    if rs == [] then acc else AddResponse(AddResponses(acc, rs[..|rs| - 1]), rs[|rs| - 1].0, rs[|rs| - 1].1)
  }

  /** The responses block, only when responses are given. */
  function AddResponseSection(acc: string, responses: Option<seq<(string, Response)>>): (r: string)
    ensures acc <= r
  {
    if responses.Some? then AddResponses(acc + ResponsesKey, responses.value) else acc
  }

  /** The header, summary, tags and security lines. */
  function JSDocHead(path: string, verb: string, c: RouteConfig): string {
    AddSecurity(AddTags(AddSummary(Header(path, verb), c.summary), c.tags), c.security)
  }

  /** Everything generateJSDoc writes before closing the comment. */
  function JSDocBody(path: string, verb: string, c: RouteConfig): string {
    AddResponseSection(AddRequestBody(AddParameters(JSDocHead(path, verb, c), c.parameters), c.requestBody), c.responses)
  }

  /** The comment generateJSDoc returns for one operation. */
  function JSDocText(path: string, verb: string, c: RouteConfig): string {
    JSDocBody(path, verb, c) + CloseComment
  }

  // ------------------------------------------------------ properties of text

  predicate EndsWith(s: string, suffix: string) {
    |suffix| <= |s| && s[|s| - |suffix|..] == suffix
  }

  /** Every comment opens with the @swagger header for its path and method and closes the comment. */
  lemma JSDocFrame(path: string, verb: string, c: RouteConfig)
    ensures Text.StartsWith(JSDocText(path, verb, c), "/**\n * @swagger\n * " + path + ":\n *   " + verb + ":\n")
    ensures EndsWith(JSDocText(path, verb, c), " */")
  {
    var h := Header(path, verb);
    var body := JSDocBody(path, verb, c);
    var s3 := JSDocHead(path, verb, c);
    assert h <= s3;
    var s4 := AddParameters(s3, c.parameters);
    var s5 := AddRequestBody(s4, c.requestBody);
    assert s3 <= s4 <= s5 <= body;
    assert (body + CloseComment)[..|h|] == body[..|h|];
    assert (body + CloseComment)[|body|..] == CloseComment;
  }

  /** The summary, tags and security lines are written exactly when the field is present (truthy, for the summary). */
  lemma HeadSectionsOnlyWhenPresent(acc: string, summary: Option<string>, tags: Option<seq<string>>,
                                    security: Option<seq<seq<string>>>)
    ensures AddSummary(acc, summary) == acc <==> !TruthyText(summary)
    ensures AddTags(acc, tags) == acc <==> tags.None?
    ensures AddSecurity(acc, security) == acc <==> security.None?
  {
    if TruthyText(summary) {
      assert |AddSummary(acc, summary)| > |acc|;
    }
    if tags.Some? {
      assert |AddTags(acc, tags)| > |acc|;
    }
    if security.Some? {
      assert |AddSecurity(acc, security)| > |acc|;
    }
  }

  /**
   * The parameters block is written exactly for a non-empty parameter list,
   * and the request body and responses blocks exactly when they are present.
   */
  lemma BlocksOnlyWhenPresent(acc: string, parameters: Option<seq<Param>>, body: Option<RequestBody>,
                              responses: Option<seq<(string, Response)>>)
    ensures AddParameters(acc, parameters) == acc <==> parameters.None? || |parameters.value| == 0
    ensures AddRequestBody(acc, body) == acc <==> body.None?
    ensures AddResponseSection(acc, responses) == acc <==> responses.None?
  {
    if parameters.Some? && |parameters.value| > 0 {
      assert acc + ParametersKey <= AddParameters(acc, parameters);
    }
    if body.Some? {
      assert acc + BodyKey <= AddBodyHeader(acc, body.value) <= AddRequestBody(acc, body);
    }
    if responses.Some? {
      assert acc + ResponsesKey <= AddResponseSection(acc, responses);
    }
  }

  /** An empty summary and an empty parameter list are left out as if absent. */
  lemma FalsySectionsOmitted(path: string, verb: string, c: RouteConfig)
    ensures JSDocText(path, verb, c.(summary := Some(""))) == JSDocText(path, verb, c.(summary := None))
    ensures JSDocText(path, verb, c.(parameters := Some([]))) == JSDocText(path, verb, c.(parameters := None))
  {
  }

  /** A parameter's minimum of 0 and empty format are left out as if absent. */
  lemma FalsyParamFieldsOmitted(acc: string, p: Param)
    ensures AddParam(acc, p.(minimum := Some(0))) == AddParam(acc, p.(minimum := None))
    ensures AddParam(acc, p.(format := Some(""))) == AddParam(acc, p.(format := None))
  {
    var h := AddParamHead(acc, p);
    var m0, m1 := p.(minimum := Some(0)), p.(minimum := None);
    assert AddParamHead(acc, m0) == h == AddParamHead(acc, m1);
    assert AddParamChecks(h, m0) == AddParamChecks(h, m1);
    var f0, f1 := p.(format := Some("")), p.(format := None);
    assert AddParamHead(acc, f0) == h == AddParamHead(acc, f1);
    var c := AddParamChecks(h, p);
    assert AddParamChecks(h, f0) == c == AddParamChecks(h, f1);
  }

  /** A property's minimum of 0 is left out as if absent. */
  lemma PropertyMinimumZeroOmitted(acc: string, key: string, v: Property)
    ensures AddProperty(acc, key, v.(minimum := Some(0))) == AddProperty(acc, key, v.(minimum := None))
  {
    var v0, v1 := v.(minimum := Some(0)), v.(minimum := None);
    var h := AddPropertyHead(acc, key, v0);
    assert h == AddPropertyHead(acc, key, v1);
    assert AddPropertyLengths(h, v0) == AddPropertyLengths(h, v1);
  }

  /** A property's minLength or maxLength of 0 is left out as if absent. */
  lemma PropertyLengthZeroOmitted(acc: string, key: string, v: Property)
    ensures AddProperty(acc, key, v.(minLength := Some(0))) == AddProperty(acc, key, v.(minLength := None))
    ensures AddProperty(acc, key, v.(maxLength := Some(0))) == AddProperty(acc, key, v.(maxLength := None))
  {
    var h := AddPropertyHead(acc, key, v);
    var v0, v1 := v.(minLength := Some(0)), v.(minLength := None);
    assert AddPropertyHead(acc, key, v0) == h == AddPropertyHead(acc, key, v1);
    assert AddPropertyLengths(h, v0) == AddPropertyLengths(h, v1);
    var w0, w1 := v.(maxLength := Some(0)), v.(maxLength := None);
    assert AddPropertyHead(acc, key, w0) == h == AddPropertyHead(acc, key, w1);
    assert AddPropertyLengths(h, w0) == AddPropertyLengths(h, w1);
  }

  /** A `required` parameter gets exactly the one `required: true` line more than the same parameter not required. */
  lemma RequiredAddsOneLine(acc: string, p: Param)
    ensures |AddParam(acc, p.(required := true))| == |AddParam(acc, p.(required := false))| + |ParamRequired|
  {
  }

  /** The parameters are written in their order: a list's lines are its first part's lines followed by the rest's. */
  lemma {:induction false} ParamsInOrder(acc: string, a: seq<Param>, b: seq<Param>)
    ensures AddParams(acc, a + b) == AddParams(AddParams(acc, a), b)
    decreases |b|
  {
    if b == [] {
      assert a + b == a;
    } else {
      var b' := b[..|b| - 1];
      assert (a + b)[..|a + b| - 1] == a + b';
      assert (a + b)[|a + b| - 1] == b[|b| - 1];
      ParamsInOrder(acc, a, b');
    }
  }

  /** The `content` block of a response with a schema. */
  function RefBlock(ref: string): string {
    RefContent + RefJson + RefSchema + RefKey + ref + RefEnd
  }

  /** A response's content block is there exactly when it has a schema, after its code and description. */
  lemma ResponseSchemaBlock(acc: string, code: string, resp: Response)
    ensures resp.schemaRef.None? ==> AddResponse(acc, code, resp) == AddResponse(acc, code, resp.(schemaRef := None))
    ensures resp.schemaRef.Some? ==>
              AddResponse(acc, code, resp) == AddResponse(acc, code, resp.(schemaRef := None)) + RefBlock(resp.schemaRef.value)
  {
    if resp.schemaRef.Some? {
      var a2 := AddResponse(acc, code, resp.(schemaRef := None));
      var ref := resp.schemaRef.value;
      assert a2 + RefContent + RefJson + RefSchema + RefKey + ref + RefEnd == a2 + RefBlock(ref);
    }
  }

  // ------------------------------------------------------------ generateJSDoc

  lemma AddParamsStep(acc: string, ps: seq<Param>, i: int)
    requires 0 <= i < |ps|
    ensures AddParams(acc, ps[..i + 1]) == AddParam(AddParams(acc, ps[..i]), ps[i])
  {
    assert ps[..i + 1][..i] == ps[..i];
  }

  lemma AddRequiredFieldsStep(acc: string, fields: seq<string>, i: int)
    requires 0 <= i < |fields|
    ensures AddRequiredFields(acc, fields[..i + 1]) == AddRequiredFields(acc, fields[..i]) + BodyRequiredItem + fields[i] + Nl
  {
    assert fields[..i + 1][..i] == fields[..i];
  }

  lemma AddPropertiesStep(acc: string, props: seq<(string, Property)>, i: int)
    requires 0 <= i < |props|
    ensures AddProperties(acc, props[..i + 1]) == AddProperty(AddProperties(acc, props[..i]), props[i].0, props[i].1)
  {
    assert props[..i + 1][..i] == props[..i];
  }

  lemma AddResponsesStep(acc: string, rs: seq<(string, Response)>, i: int)
    requires 0 <= i < |rs|
    ensures AddResponses(acc, rs[..i + 1]) == AddResponse(AddResponses(acc, rs[..i]), rs[i].0, rs[i].1)
  {
    assert rs[..i + 1][..i] == rs[..i];
  }

  /** The body of the parameters' forEach: the lines of one parameter. */
  method AppendParam(jsdoc: string, param: Param) returns (r: string)
    ensures r == AddParam(jsdoc, param)
  {
    r := jsdoc + ParamIn + param.location + Nl;
    r := r + ParamName + param.name + Nl;
    if param.required {
      r := r + ParamRequired;
    }
    r := r + ParamSchema;
    r := r + ParamType + param.typeName + Nl;
    assert r == AddParamHead(jsdoc, param);
    ghost var head := r;
    if TruthyNumber(param.minimum) {
      r := r + ParamMinimum + Text.IntToString(param.minimum.value) + Nl;
    }
    if param.enumValues.Some? {
      r := r + ParamEnum + Text.Join(param.enumValues.value, ListSep) + ListEnd;
    }
    assert r == AddParamChecks(head, param);
    ghost var checks := r;
    if TruthyText(param.format) {
      r := r + ParamFormat + param.format.value + Nl;
    }
    r := r + ParamDescription + param.description + Nl;
    assert r == AddParamTail(checks, param);
  }

  /** The parameters, one after the other. */
  method AppendParameters(jsdoc: string, ps: seq<Param>) returns (r: string)
    ensures r == AddParams(jsdoc, ps)
  {
    r := jsdoc;
    var i := 0;
    while i < |ps|
      invariant 0 <= i <= |ps|
      invariant r == AddParams(jsdoc, ps[..i])
    {
      r := AppendParam(r, ps[i]);
      AddParamsStep(jsdoc, ps, i);
      i := i + 1;
    }
    assert ps[..i] == ps;
  }

  /** The required fields of the body schema, one line each. */
  method AppendRequiredFields(jsdoc: string, fields: seq<string>) returns (r: string)
    ensures r == AddRequiredFields(jsdoc, fields)
  {
    r := jsdoc;
    var i := 0;
    while i < |fields|
      invariant 0 <= i <= |fields|
      invariant r == AddRequiredFields(jsdoc, fields[..i])
    {
      r := r + BodyRequiredItem + fields[i] + Nl;
      AddRequiredFieldsStep(jsdoc, fields, i);
      i := i + 1;
    }
    assert fields[..i] == fields;
  }

  /** The body of the properties' forEach: the lines of one property. */
  method AppendProperty(jsdoc: string, key: string, value: Property) returns (r: string)
    ensures r == AddProperty(jsdoc, key, value)
  {
    r := jsdoc + PropIndent + key + KeyEnd;
    r := r + PropType + value.typeName + Nl;
    if TruthyNumber(value.minimum) {
      r := r + PropMinimum + Text.IntToString(value.minimum.value) + Nl;
    }
    assert r == AddPropertyHead(jsdoc, key, value);
    ghost var head := r;
    if TruthyNumber(value.minLength) {
      r := r + PropMinLength + Text.IntToString(value.minLength.value) + Nl;
    }
    if TruthyNumber(value.maxLength) {
      r := r + PropMaxLength + Text.IntToString(value.maxLength.value) + Nl;
    }
    assert r == AddPropertyLengths(head, value);
    ghost var lengths := r;
    if TruthyText(value.format) {
      r := r + PropFormat + value.format.value + Nl;
    }
    if value.enumValues.Some? {
      r := r + PropEnum + Text.Join(value.enumValues.value, ListSep) + ListEnd;
    }
    r := r + PropDescription + value.description + Nl;
    assert r == AddPropertyTail(lengths, value);
  }

  /** The request body's schema properties, property by property. */
  method AppendProperties(jsdoc: string, props: seq<(string, Property)>) returns (r: string)
    ensures r == AddProperties(jsdoc, props)
  {
    r := jsdoc;
    var i := 0;
    while i < |props|
      invariant 0 <= i <= |props|
      invariant r == AddProperties(jsdoc, props[..i])
    {
      var (key, value) := props[i];
      r := AppendProperty(r, key, value);
      AddPropertiesStep(jsdoc, props, i);
      i := i + 1;
    }
    assert props[..i] == props;
  }

  /** The request body block. */
  method AppendRequestBody(jsdoc: string, b: RequestBody) returns (r: string)
    ensures r == AddRequestBody(jsdoc, Some(b))
  {
    r := jsdoc + BodyKey;
    r := r + BodyRequired + FlagText(b.required) + Nl;
    r := r + BodyContent;
    r := r + BodyJson;
    r := r + BodySchema;
    r := r + BodyObject;
    assert r == AddBodyHeader(jsdoc, b);
    if b.schemaRequired.Some? {
      r := r + BodyRequiredList;
      r := AppendRequiredFields(r, b.schemaRequired.value);
    }
    r := r + BodyProperties;
    r := AppendProperties(r, b.properties);
  }

  /** The body of the responses' forEach: the lines of one response. */
  method AppendResponse(jsdoc: string, code: string, response: Response) returns (r: string)
    ensures r == AddResponse(jsdoc, code, response)
  {
    r := jsdoc + CodeIndent + code + KeyEnd;
    r := r + ResponseDescription + response.description + Nl;
    if response.schemaRef.Some? {
      r := r + RefContent;
      r := r + RefJson;
      r := r + RefSchema;
      r := r + RefKey + response.schemaRef.value + RefEnd;
    }
  }

  /** The responses, response by response. */
  method AppendResponses(jsdoc: string, rs: seq<(string, Response)>) returns (r: string)
    ensures r == AddResponses(jsdoc, rs)
  {
    r := jsdoc;
    var i := 0;
    while i < |rs|
      invariant 0 <= i <= |rs|
      invariant r == AddResponses(jsdoc, rs[..i])
    {
      var (code, response) := rs[i];
      r := AppendResponse(r, code, response);
      AddResponsesStep(jsdoc, rs, i);
      i := i + 1;
    }
    assert rs[..i] == rs;
  }

  lemma JSDocBodyStages(path: string, verb: string, c: RouteConfig, s3: string, s4: string, s5: string)
    requires s3 == JSDocHead(path, verb, c)
    requires s4 == AddParameters(s3, c.parameters)
    requires s5 == AddRequestBody(s4, c.requestBody)
    ensures AddResponseSection(s5, c.responses) == JSDocBody(path, verb, c)
  {
  }

  /** generateJSDoc: the comment built by appending section after section. */
  method GenerateJSDoc(path: string, verb: string, config: RouteConfig) returns (jsdoc: string)
    ensures jsdoc == JSDocText(path, verb, config)
  {
    jsdoc := OpenComment + path + PathEnd + verb + KeyEnd;
    if TruthyText(config.summary) {
      jsdoc := jsdoc + SummaryKey + config.summary.value + Nl;
    }
    if config.tags.Some? {
      jsdoc := jsdoc + TagsKey + Text.Join(config.tags.value, ListSep) + ListEnd;
    }
    if config.security.Some? {
      jsdoc := jsdoc + SecurityKey + Text.Join(SecurityItems(config.security.value), SecuritySep) + Nl;
    }
    ghost var s3 := jsdoc;
    assert s3 == JSDocHead(path, verb, config);
    if config.parameters.Some? && |config.parameters.value| > 0 {
      jsdoc := jsdoc + ParametersKey;
      jsdoc := AppendParameters(jsdoc, config.parameters.value);
    }
    ghost var s4 := jsdoc;
    assert s4 == AddParameters(s3, config.parameters);
    if config.requestBody.Some? {
      jsdoc := AppendRequestBody(jsdoc, config.requestBody.value);
    }
    ghost var s5 := jsdoc;
    assert s5 == AddRequestBody(s4, config.requestBody);
    if config.responses.Some? {
      jsdoc := jsdoc + ResponsesKey;
      jsdoc := AppendResponses(jsdoc, config.responses.value);
    }
    assert jsdoc == AddResponseSection(s5, config.responses);
    JSDocBodyStages(path, verb, config, s3, s4, s5);
    jsdoc := jsdoc + CloseComment;
  }

  // ---------------------------------------------------------- generateForFile

  /** `${method.toUpperCase()} ${path}` */
  function RouteKey(path: string, verb: string): string {
    Text.Upper(verb) + " " + path
  }

  /**
   * The comments of one path's operations added to `docs`, later operations
   * overwriting equal keys; `doc` writes the comment of one operation.
   */
  function PathDocs(docs: map<string, string>, path: string, methods: seq<(string, RouteConfig)>,
                    doc: (string, string, RouteConfig) -> string): map<string, string>
  {
    if methods == [] then docs
    else
      var n := |methods| - 1;
      PathDocs(docs, path, methods[..n], doc)[RouteKey(path, methods[n].0) := doc(path, methods[n].0, methods[n].1)]
  }

  /** The object generateForFile fills, path after path. */
  function FileDocs(table: RouteTable, doc: (string, string, RouteConfig) -> string): map<string, string> {
    if table == [] then map[]
    else PathDocs(FileDocs(table[..|table| - 1], doc), table[|table| - 1].path, table[|table| - 1].methods, doc)
  }

  /** The operation at (i, j) of the table. */
  predicate IsOperation(table: RouteTable, i: int, j: int) {
    0 <= i < |table| && 0 <= j < |table[i].methods|
  }

  lemma {:induction false} PathDocsKeys(docs: map<string, string>, path: string, methods: seq<(string, RouteConfig)>,
                                        doc: (string, string, RouteConfig) -> string, k: string)
    ensures k in PathDocs(docs, path, methods, doc) <==>
              k in docs || exists j :: 0 <= j < |methods| && k == RouteKey(path, methods[j].0)
    decreases |methods|
  {
    if methods != [] {
      var n := |methods| - 1;
      PathDocsKeys(docs, path, methods[..n], doc, k);
      if exists j :: 0 <= j < n && k == RouteKey(path, methods[..n][j].0) {
        var j :| 0 <= j < n && k == RouteKey(path, methods[..n][j].0);
        assert methods[j] == methods[..n][j];
      }
      if exists j :: 0 <= j < |methods| && k == RouteKey(path, methods[j].0) {
        var j :| 0 <= j < |methods| && k == RouteKey(path, methods[j].0);
        if j < n {
          assert methods[..n][j] == methods[j];
        }
      }
    }
  }

  /** generateForFile has one entry per operation of the table, keyed `METHOD path`, and no other. */
  lemma {:induction false} FileDocsKeys(table: RouteTable, doc: (string, string, RouteConfig) -> string, k: string)
    ensures k in FileDocs(table, doc) <==>
              exists i, j :: IsOperation(table, i, j) && k == RouteKey(table[i].path, table[i].methods[j].0)
    decreases |table|
  {
    if table != [] {
      var n := |table| - 1;
      var prefix := table[..n];
      FileDocsKeys(prefix, doc, k);
      PathDocsKeys(FileDocs(prefix, doc), table[n].path, table[n].methods, doc, k);
      if exists i, j :: IsOperation(prefix, i, j) && k == RouteKey(prefix[i].path, prefix[i].methods[j].0) {
        var i, j :| IsOperation(prefix, i, j) && k == RouteKey(prefix[i].path, prefix[i].methods[j].0);
        assert prefix[i] == table[i];
        assert IsOperation(table, i, j);
      }
      if exists j :: 0 <= j < |table[n].methods| && k == RouteKey(table[n].path, table[n].methods[j].0) {
        var j :| 0 <= j < |table[n].methods| && k == RouteKey(table[n].path, table[n].methods[j].0);
        assert IsOperation(table, n, j);
      }
      if exists i, j :: IsOperation(table, i, j) && k == RouteKey(table[i].path, table[i].methods[j].0) {
        var i, j :| IsOperation(table, i, j) && k == RouteKey(table[i].path, table[i].methods[j].0);
        if i < n {
          assert prefix[i] == table[i];
          assert IsOperation(prefix, i, j);
        }
      }
    }
  }

  lemma PathDocsStep(docs: map<string, string>, path: string, methods: seq<(string, RouteConfig)>,
                     doc: (string, string, RouteConfig) -> string, j: int)
    requires 0 <= j < |methods|
    ensures PathDocs(docs, path, methods[..j + 1], doc)
            == PathDocs(docs, path, methods[..j], doc)[RouteKey(path, methods[j].0) := doc(path, methods[j].0, methods[j].1)]
  {
    assert methods[..j + 1][..j] == methods[..j];
  }

  lemma FileDocsStep(table: RouteTable, doc: (string, string, RouteConfig) -> string, i: int)
    requires 0 <= i < |table|
    ensures FileDocs(table[..i + 1], doc) == PathDocs(FileDocs(table[..i], doc), table[i].path, table[i].methods, doc)
  {
    assert table[..i + 1][..i] == table[..i];
  }

  /** generateForFile: its argument is not read; the table's operations are documented one by one. */
  method GenerateForFile<R>(table: RouteTable, routes: R) returns (jsdocs: map<string, string>)
    ensures jsdocs == FileDocs(table, JSDocText)
  {
    jsdocs := map[];
    var i := 0;
    while i < |table|
      invariant 0 <= i <= |table|
      invariant jsdocs == FileDocs(table[..i], JSDocText)
    {
      var entry := table[i];
      ghost var before := jsdocs;
      var j := 0;
      while j < |entry.methods|
        invariant 0 <= j <= |entry.methods|
        invariant jsdocs == PathDocs(before, entry.path, entry.methods[..j], JSDocText)
      {
        var (verb, config) := entry.methods[j];
        var key := Text.Upper(verb) + " " + entry.path;
        var doc := GenerateJSDoc(entry.path, verb, config);
        PathDocsStep(before, entry.path, entry.methods, JSDocText, j);
        jsdocs := jsdocs[key := doc];
        j := j + 1;
      }
      assert entry.methods[..j] == entry.methods;
      FileDocsStep(table, JSDocText, i);
      i := i + 1;
    }
    assert table[..i] == table;
  }

  /** No two operations of the table share a `METHOD path` key, as in an object of objects with lower-case method names. */
  ghost predicate DistinctKeys(table: RouteTable) {
    forall i, j, i2, j2 ::
      IsOperation(table, i, j) && IsOperation(table, i2, j2) && (i != i2 || j != j2) ==>
        RouteKey(table[i].path, table[i].methods[j].0) != RouteKey(table[i2].path, table[i2].methods[j2].0)
  }

  /** Keys not written by a path's operations keep their entries. */
  lemma {:induction false} PathDocsOther(docs: map<string, string>, path: string, methods: seq<(string, RouteConfig)>,
                                         doc: (string, string, RouteConfig) -> string, k: string)
    requires k in docs
    requires forall j :: 0 <= j < |methods| ==> k != RouteKey(path, methods[j].0)
    ensures k in PathDocs(docs, path, methods, doc) && PathDocs(docs, path, methods, doc)[k] == docs[k]
    decreases |methods|
  {
    if methods != [] {
      var n := |methods| - 1;
      assert forall j :: 0 <= j < n ==> methods[..n][j] == methods[j];
      PathDocsOther(docs, path, methods[..n], doc, k);
    }
  }

  /** With distinct keys, each of a path's operations leaves its own comment under its key. */
  lemma {:induction false} PathDocsValue(docs: map<string, string>, path: string, methods: seq<(string, RouteConfig)>,
                                         doc: (string, string, RouteConfig) -> string, j: int)
    requires 0 <= j < |methods|
    requires forall j1, j2 :: 0 <= j1 < |methods| && 0 <= j2 < |methods| && j1 != j2 ==>
               RouteKey(path, methods[j1].0) != RouteKey(path, methods[j2].0)
    ensures RouteKey(path, methods[j].0) in PathDocs(docs, path, methods, doc)
    ensures PathDocs(docs, path, methods, doc)[RouteKey(path, methods[j].0)] == doc(path, methods[j].0, methods[j].1)
    decreases |methods|
  {
    var n := |methods| - 1;
    if j < n {
      var prefix := methods[..n];
      assert forall j1 :: 0 <= j1 < n ==> prefix[j1] == methods[j1];
      PathDocsValue(docs, path, prefix, doc, j);
      assert prefix[j] == methods[j];
    }
  }

  /**
   * With distinct keys, generateForFile holds, for every operation of the
   * table, that operation's comment under its `METHOD path` key.
   */
  lemma {:induction false} FileDocsValue(table: RouteTable, doc: (string, string, RouteConfig) -> string, i: int, j: int)
    requires DistinctKeys(table)
    requires IsOperation(table, i, j)
    ensures RouteKey(table[i].path, table[i].methods[j].0) in FileDocs(table, doc)
    ensures FileDocs(table, doc)[RouteKey(table[i].path, table[i].methods[j].0)]
            == doc(table[i].path, table[i].methods[j].0, table[i].methods[j].1)
    decreases |table|
  {
    var n := |table| - 1;
    var prefix := table[..n];
    var last := table[n];
    assert forall j1, j2 :: 0 <= j1 < |last.methods| && 0 <= j2 < |last.methods| && j1 != j2 ==>
             IsOperation(table, n, j1) && IsOperation(table, n, j2);
    if i == n {
      PathDocsValue(FileDocs(prefix, doc), last.path, last.methods, doc, j);
    } else {
      assert prefix[i] == table[i];
      assert forall i1, j1 :: IsOperation(prefix, i1, j1) ==> prefix[i1] == table[i1] && IsOperation(table, i1, j1);
      FileDocsValue(prefix, doc, i, j);
      assert forall j2 :: 0 <= j2 < |last.methods| ==> IsOperation(table, n, j2);
      PathDocsOther(FileDocs(prefix, doc), last.path, last.methods, doc, RouteKey(table[i].path, table[i].methods[j].0));
    }
  }

  // --------------------------------------------------------- getJSDocForRoute

  /** `swaggerRoutes[path][method]`, when both are there. */
  function FindOperation(table: RouteTable, path: string, verb: string): (r: Option<RouteConfig>)
    ensures r.None? <==> !exists i, j :: IsOperation(table, i, j) && table[i].path == path && table[i].methods[j].0 == verb
    ensures r.Some? ==> exists i, j :: IsOperation(table, i, j) && table[i].path == path
                                       && table[i].methods[j] == (verb, r.value)
  {
    if table == [] then None
    else
      var n := |table| - 1;
      var found := FindMethod(table[n].methods, verb);
      if table[n].path == path && found.Some? then
        assert IsOperation(table, n, found.value.0);
        Some(found.value.1)
      else
        var r := FindOperation(table[..n], path, verb);
        if r.Some? then
          var i, j :| IsOperation(table[..n], i, j) && table[..n][i].path == path && table[..n][i].methods[j] == (verb, r.value);
          assert table[i] == table[..n][i];
          r
        else
          assert forall i, j :: IsOperation(table, i, j) && i < n ==> table[i] == table[..n][i];
          None
  }

  /** The last operation of a path with the given method name, and its position. */
  function FindMethod(methods: seq<(string, RouteConfig)>, verb: string): (r: Option<(int, RouteConfig)>)
    ensures r.None? <==> forall j :: 0 <= j < |methods| ==> methods[j].0 != verb
    ensures r.Some? ==> 0 <= r.value.0 < |methods| && methods[r.value.0] == (verb, r.value.1)
  {
    if methods == [] then None
    else if methods[|methods| - 1].0 == verb then Some((|methods| - 1, methods[|methods| - 1].1))
    else
      var r := FindMethod(methods[..|methods| - 1], verb);
      if r.Some? then Some(r.value) else None
  }

  /**
   * With distinct keys, getJSDocForRoute on any operation of the table gives
   * the comment generateForFile holds under that operation's key.
   */
  lemma RouteDocAgreesWithFile(table: RouteTable, i: int, j: int)
    requires DistinctKeys(table)
    requires IsOperation(table, i, j)
    ensures RouteKey(table[i].path, table[i].methods[j].0) in FileDocs(table, JSDocText)
    ensures GetJSDocForRoute(table, table[i].path, table[i].methods[j].0)
            == Some(FileDocs(table, JSDocText)[RouteKey(table[i].path, table[i].methods[j].0)])
  {
    var path, verb := table[i].path, table[i].methods[j].0;
    FileDocsValue(table, JSDocText, i, j);
    var found := FindOperation(table, path, verb);
    assert found.Some?;
    var i2, j2 :| IsOperation(table, i2, j2) && table[i2].path == path && table[i2].methods[j2] == (verb, found.value);
    assert RouteKey(table[i2].path, table[i2].methods[j2].0) == RouteKey(path, verb);
  }

  /** getJSDocForRoute: null for an unknown path or method, else the comment of that operation. */
  function GetJSDocForRoute(table: RouteTable, path: string, verb: string): (r: Option<string>)
    ensures r.None? <==> FindOperation(table, path, verb).None?
    ensures r.Some? ==> r.value == JSDocText(path, verb, FindOperation(table, path, verb).value)
    ensures r.Some? ==> Text.StartsWith(r.value, "/**\n * @swagger\n * " + path + ":\n *   " + verb + ":\n")
  {
    match FindOperation(table, path, verb)
    case None => None
    case Some(config) =>
      JSDocFrame(path, verb, config);
      Some(JSDocText(path, verb, config))
  }
}
