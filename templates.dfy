/** The template store: template bodies by name, where the first character
    of a name is case-insensitive. */
module Templates {
  import opened Outcomes
  import opened Strings

  /** The two ways a store lookup fails: `IndexError` for an empty name (from
      `key[0]`) and `KeyError` for a name that is not stored. */
  datatype LookupError = EmptyName | Missing

  /** `_clean_name`: the first character lower-cased, the rest kept; `None`
      for the empty name, where `key[0]` raises. */
  function CleanName(key: string): (r: Option<string>)
    ensures r.None? <==> key == []
    ensures r.Some? ==> |r.value| == |key| && r.value[0] == Lower(key[0]) && r.value[1..] == key[1..]
    ensures r.Some? ==> !IsAsciiUpper(r.value[0])
  {
    if key == [] then None else Some([Lower(key[0])] + key[1..])
  }

  /** Cleaning a cleaned name changes nothing. */
  lemma CleanNameIdempotent(key: string)
    requires key != []
    ensures CleanName(CleanName(key).value) == CleanName(key)
  {
    var c := CleanName(key).value;
    assert Lower(c[0]) == c[0];
    assert [c[0]] + c[1..] == c;
  }

  /** The case of the first letter does not matter: "Temp" and "temp" clean
      alike. */
  lemma CleanNameFirstLetter(c: char, s: string)
    requires IsAsciiLower(c) || IsAsciiUpper(c)
    ensures CleanName([Lower(c)] + s) == CleanName([Upper(c)] + s)
  {
    LowerUpper(c);
    assert ([Lower(c)] + s)[1..] == s && ([Upper(c)] + s)[1..] == s;
  }

  /** A cleaned name never starts with an ASCII capital, so an entry whose
      name does (as the uncleaned keys given to the constructor may) can
      never be found. */
  lemma UpperKeyUnreachable(k: string, key: string)
    requires k != [] && IsAsciiUpper(k[0])
    ensures CleanName(key) != Some(k)
  {
  }

  /** `store[key]` on the store's map. */
  function Lookup<T>(templates: map<string, T>, key: string): (r: Result<T, LookupError>)
    ensures r == Err(EmptyName) <==> key == []
    ensures r.Ok? <==> key != [] && CleanName(key).value in templates
    ensures r.Ok? ==> r.value == templates[CleanName(key).value]
  {
    match CleanName(key)
    case None => Err(EmptyName)
    case Some(k) => if k in templates then Ok(templates[k]) else Err(Missing)
  }

  /** A value stored under one name is found under every name that cleans to
      the same key ("Temp" finds what "temp" stored), and storing leaves the
      other keys as they were. */
  lemma LookupAfterStore<T>(templates: map<string, T>, key: string, value: T, other: string)
    requires key != []
    ensures var m := templates[CleanName(key).value := value];
            Lookup(m, other) == if CleanName(other) == CleanName(key) then Ok(value) else Lookup(templates, other)
  {
  }

  /** `TemplateStore`. */
  class TemplateStore<T> {
    var templates: map<string, T>

    /** `TemplateStore()`: no templates. */
    constructor Empty()
      ensures templates == map[]
    {
      templates := map[];
    }

    /** `TemplateStore(templates)`: the given map is kept as it is, without
        cleaning its keys. */
    constructor (m: map<string, T>)
      ensures templates == m
    {
      templates := m;
    }

    /** `store[key]`. */
    function Get(key: string): (r: Result<T, LookupError>)
      reads this
      ensures r == Lookup(templates, key)
    {
      Lookup(templates, key)
    }

    /** `store[key] = value`: returns the value, or fails with `IndexError`
        for an empty name and then changes nothing. */
    method Set(key: string, value: T) returns (r: Result<T, LookupError>)
      modifies this
      ensures key == [] ==> r == Err(EmptyName) && templates == old(templates)
      ensures key != [] ==> r == Ok(value) && templates == old(templates)[CleanName(key).value := value]
      ensures key != [] ==> Get(key) == Ok(value)
    {
      if key == [] {
        return Err(EmptyName);
      }
      templates := templates[CleanName(key).value := value];
      return Ok(value);
    }
  }
}
