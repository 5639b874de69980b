/** Scripts reached through `{{#invoke:Module|function|...}}`: the lookup of
    a module function by name and the one installed function, `String.len`. */
module Modules {
  import opened Outcomes
  import opened Strings
  import opened Params

  /** The functions an installed module provides. */
  datatype ModuleFunction = StringLen

  /** Installed modules by (case-sensitive) module name, each a map from
      function name to function; it stands for the importable submodules of
      the `modules` package. */
  type Registry = map<string, map<string, ModuleFunction>>

  /** The one installed module, `string`, with its function `len`. */
  const Installed: Registry := map["string" := map["len" := StringLen]]

  /** The two ways a lookup fails: `UnknownModule`, and the `IndexError`
      from `module_name[0]` when the module name is empty. */
  datatype LookupError = UnknownModule | EmptyModuleName

  /** The first module among the lower-first and then the upper-first
      spelling of `name` that is installed. */
  function FindModule(registry: Registry, name: string): (r: Option<map<string, ModuleFunction>>)
    requires name != []
    ensures r.Some? <==> [Lower(name[0])] + name[1..] in registry || [Upper(name[0])] + name[1..] in registry
    ensures [Lower(name[0])] + name[1..] in registry ==> r == Some(registry[[Lower(name[0])] + name[1..]])
    ensures [Lower(name[0])] + name[1..] !in registry && [Upper(name[0])] + name[1..] in registry ==>
              r == Some(registry[[Upper(name[0])] + name[1..]])
  {
    var lowerFirst := [Lower(name[0])] + name[1..];
    var upperFirst := [Upper(name[0])] + name[1..];
    if lowerFirst in registry then Some(registry[lowerFirst])
    else if upperFirst in registry then Some(registry[upperFirst])
    else None
  }

  /** `ModuleStore.get_function`. Once a spelling of the module is found the
      function is looked up in that module only (case-sensitively). */
  function GetFunction(registry: Registry, moduleName: string, functionName: string): (r: Result<ModuleFunction, LookupError>)
    ensures r == Err(EmptyModuleName) <==> moduleName == []
    ensures moduleName != [] && FindModule(registry, moduleName).None? ==> r == Err(UnknownModule)
    ensures moduleName != [] && FindModule(registry, moduleName).Some? ==>
              (r.Ok? <==> functionName in FindModule(registry, moduleName).value)
    ensures r.Ok? ==> r.value == FindModule(registry, moduleName).value[functionName]
  {
    if moduleName == [] then Err(EmptyModuleName)
    else match FindModule(registry, moduleName)
      case None => Err(UnknownModule)
      case Some(m) => if functionName in m then Ok(m[functionName]) else Err(UnknownModule)
  }

  /** The first letter of a module name is case-insensitive: both spellings
      try the same two candidates in the same order. */
  lemma GetFunctionFirstLetter(registry: Registry, c: char, s: string, functionName: string)
    requires IsAsciiLower(c) || IsAsciiUpper(c)
    ensures GetFunction(registry, [Lower(c)] + s, functionName) == GetFunction(registry, [Upper(c)] + s, functionName)
  {
    LowerUpper(c);
    UpperLower(c);
    assert ([Lower(c)] + s)[1..] == s && ([Upper(c)] + s)[1..] == s;
  }

  /** `String.len` is reached as `string|len` and as `String|len`; the
      registry holds no other function for that module. */
  lemma InstalledLen(functionName: string)
    ensures GetFunction(Installed, "string", functionName) == GetFunction(Installed, "String", functionName)
    ensures GetFunction(Installed, "String", functionName) == if functionName == "len" then Ok(StringLen) else Err(UnknownModule)
  {
    GetFunctionFirstLetter(Installed, 's', "tring", functionName);
    assert [Lower('s')] + "tring" == "string";
    assert [Upper('s')] + "tring" == "String";
  }

  /** The string whose length `len` reports: `context['s']`, else
      `context.get('1', '')`. */
  function LenArgument(context: Params): (s: string)
    ensures Get(context, "s").Some? ==> s == Get(context, "s").value
    ensures Get(context, "s").None? && Get(context, "1").Some? ==> s == Get(context, "1").value
    ensures Get(context, "s").None? && Get(context, "1").None? ==> s == ""
  {
    match Get(context, "s")
    case Some(s) => s
    case None => match Get(context, "1") case Some(s) => s case None => ""
  }

  /** `String.len(context)`: `str(len(s))`. */
  function Len(context: Params): (r: string)
    ensures ParseInt(r) == Some(|LenArgument(context)|)
  {
    IntDecimalRoundTrip(|LenArgument(context)|);
    NatToDecimal(|LenArgument(context)|)
  }

  /** The named argument wins over the first positional one, and without
      either the length is `"0"`. */
  lemma LenCases(context: Params)
    ensures "s" in Keys(context) ==> Len(context) == NatToDecimal(|Get(context, "s").value|)
    ensures "s" !in Keys(context) && "1" in Keys(context) ==> Len(context) == NatToDecimal(|Get(context, "1").value|)
    ensures "s" !in Keys(context) && "1" !in Keys(context) ==> Len(context) == "0"
  {
  }

  /** Calls a module function on its (renumbered) parameters. */
  function Call(f: ModuleFunction, context: Params): string {
    match f
    case StringLen => Len(context)
  }
}
