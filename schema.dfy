/** The function-call schemas of the bcc tools (the objects of `funcs.json`) and the two ways
    the source picks one by name. */
module Schema {
  import opened Values

  /** The `"name"` entry of a schema: missing, present but not a string (JSON null, a number),
      or a string. */
  datatype NameField = Absent | NotAString | Named(s: string)

  /** A function-call schema: its `"name"` entry and, for each entry of
      `parameters.properties`, its `"type"` if it declares one. */
  datatype FunctionSchema = FunctionSchema(name: NameField, properties: map<string, Option<string>>)

  /** `get_specify_func(functions, cmd)`: the first schema whose `func.get('name')` equals
      `command`, or None when there is none. */
  function GetSpecifyFunc(functions: seq<FunctionSchema>, command: string): (r: Option<FunctionSchema>)
    ensures r.Some? ==> (exists i :: 0 <= i < |functions| && functions[i] == r.value
                           && (forall j :: 0 <= j < i ==> functions[j].name != Named(command)))
    ensures r.Some? ==> r.value.name == Named(command)
    ensures r.None? <==> forall j :: 0 <= j < |functions| ==> functions[j].name != Named(command)
  {
    if functions == [] then None
    else if functions[0].name == Named(command) then Some(functions[0])
    else
      var r := GetSpecifyFunc(functions[1..], command);
      assert forall j :: 1 <= j < |functions| ==> functions[j] == functions[1..][j - 1];
      r
  }

  /** The index at which the selection loop of `cmd` stops: the first schema that either has
      no `"name"` entry (so `func["name"]` raises) or has the requested name. */
  function StopIndex(functions: seq<FunctionSchema>, command: string, from: nat): (r: nat)
    requires from <= |functions|
    ensures from <= r <= |functions|
    ensures r < |functions| ==> functions[r].name.Absent? || functions[r].name == Named(command)
    ensures forall j :: from <= j < r ==> !functions[j].name.Absent? && functions[j].name != Named(command)
    decreases |functions| - from
  {
    if from == |functions| then from
    else if functions[from].name.Absent? || functions[from].name == Named(command) then from
    else StopIndex(functions, command, from + 1)
  }

  /** The schema selection at the start of `cmd` (and `cmd_parser`): the first predefined
      schema named `command`, else the schema the generator produces (`generated` stands for
      the result of `gen_func_call`). Unlike `get_specify_func` it subscripts `func["name"]`,
      so a schema without a `"name"` entry met before a match raises; one whose name is not a
      string is compared and passed over. */
  method SelectSchema(functions: seq<FunctionSchema>, command: string, generated: FunctionSchema)
    returns (r: Result<FunctionSchema>)
    ensures var k := StopIndex(functions, command, 0);
      r == if k == |functions| then Ok(generated)
           else if functions[k].name.Absent? then Err(NamelessSchema)
           else Ok(functions[k])
  {
    var found: Option<FunctionSchema> := None;
    var i := 0;
    while i < |functions|
      invariant 0 <= i <= |functions|
      invariant forall j :: 0 <= j < i ==> !functions[j].name.Absent? && functions[j].name != Named(command)
    {
      var f := functions[i];
      if f.name.Absent? {
        return Err(NamelessSchema);
      }
      if f.name == Named(command) {
        found := Some(f);
        break;
      }
      i := i + 1;
    }
    if found == None {
      found := Some(generated);
    }
    r := Ok(found.value);
  }

  /** When every predefined schema has a `"name"` entry, the selection loop agrees with
      `get_specify_func` and falls back to the generated schema. */
  lemma SelectAgreesWithLookup(functions: seq<FunctionSchema>, command: string)
    requires forall j :: 0 <= j < |functions| ==> !functions[j].name.Absent?
    ensures var k := StopIndex(functions, command, 0);
      (k == |functions| <==> GetSpecifyFunc(functions, command).None?)
      && (k < |functions| ==> GetSpecifyFunc(functions, command) == Some(functions[k]))
  {
    var k := StopIndex(functions, command, 0);
    var g := GetSpecifyFunc(functions, command);
    if g.Some? {
      var i :| 0 <= i < |functions| && functions[i] == g.value
        && (forall j :: 0 <= j < i ==> functions[j].name != Named(command));
      assert i == k;
    }
  }
}
