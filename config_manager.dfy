/** Configuration lookup: a key is resolved against the JVM system properties,
    then the process environment, then the loaded config.properties file, and
    finally a caller-supplied default. A blank value at any level counts as
    absent. The three sources are parameters; loading the properties file from
    the classpath is not modelled. */
module ConfigManager {
  import opened Wrappers
  import opened Strings

  /** The three places a key can be looked up, highest priority first. */
  datatype Sources = Sources(
    systemProperties: map<string, string>,
    environment: map<string, string>,
    properties: map<string, string>)

  /** Map lookup that yields null (None) for a missing key. */
  function Lookup(m: map<string, string>, key: string): (r: Option<string>)
    ensures r.Some? <==> key in m
    ensures r.Some? ==> r.value == m[key]
  {
    if key in m then Some(m[key]) else None
  }

  /** The non-null and non-blank test that guards each level. */
  predicate Usable(v: Option<string>) {
    v.Some? && !IsBlank(v.value)
  }

  /** ConfigManager.get(key, defaultValue). */
  function Get(src: Sources, key: string, defaultValue: Option<string>): (r: Option<string>)
    ensures Usable(Lookup(src.systemProperties, key)) ==> r == Lookup(src.systemProperties, key)
    ensures !Usable(Lookup(src.systemProperties, key)) && Usable(Lookup(src.environment, key))
            ==> r == Lookup(src.environment, key)
    ensures !Usable(Lookup(src.systemProperties, key)) && !Usable(Lookup(src.environment, key))
            && Usable(Lookup(src.properties, key))
            ==> r == Lookup(src.properties, key)
    ensures !Usable(Lookup(src.systemProperties, key)) && !Usable(Lookup(src.environment, key))
            && !Usable(Lookup(src.properties, key))
            ==> r == defaultValue
    ensures r == defaultValue || Usable(r)
  {
    var sys := Lookup(src.systemProperties, key);
    if Usable(sys) then sys
    else
      var env := Lookup(src.environment, key);
      if Usable(env) then env
      else
        var value := Lookup(src.properties, key);
        if Usable(value) then value
        else defaultValue
  }

  /** ConfigManager.get(key): the same lookup with a null default, so a
      returned value is never blank. */
  function GetOrNull(src: Sources, key: string): (r: Option<string>)
    ensures r == Get(src, key, None)
    ensures r.Some? ==> !IsBlank(r.value)
  {
    Get(src, key, None)
  }

  /** Reference definition of the cascade: the first usable candidate in
      priority order, or the default when there is none. */
  function FirstUsable(candidates: seq<Option<string>>, defaultValue: Option<string>): (r: Option<string>)
    ensures r == defaultValue || exists i :: 0 <= i < |candidates| && candidates[i] == r && Usable(r)
  {
    if candidates == [] then defaultValue
    else if Usable(candidates[0]) then candidates[0]
    else
      var rest := FirstUsable(candidates[1..], defaultValue);
      assert rest != defaultValue ==> exists i :: 0 <= i < |candidates[1..]| && candidates[1..][i] == rest;
      rest
  }

  /** The three levels, highest priority first. */
  function Candidates(src: Sources, key: string): (cs: seq<Option<string>>)
    ensures |cs| == 3
  {
    [Lookup(src.systemProperties, key), Lookup(src.environment, key), Lookup(src.properties, key)]
  }

  /** Get is the first usable level in priority order. */
  lemma GetIsFirstUsable(src: Sources, key: string, defaultValue: Option<string>)
    ensures Get(src, key, defaultValue) == FirstUsable(Candidates(src, key), defaultValue)
  {
    var cs := Candidates(src, key);
    assert cs[1..] == [cs[1], cs[2]];
    assert cs[1..][1..] == [cs[2]];
    assert cs[1..][1..][1..] == [];
    assert FirstUsable(cs[1..][1..], defaultValue) == if Usable(cs[2]) then cs[2] else defaultValue;
  }

  /** The result is the default or the usable value found at one of the levels. */
  lemma GetOrigin(src: Sources, key: string, defaultValue: Option<string>)
    ensures var r := Get(src, key, defaultValue);
            r == defaultValue ||
            (Usable(r) && (r == Lookup(src.systemProperties, key) ||
                           r == Lookup(src.environment, key) ||
                           r == Lookup(src.properties, key)))
  {
  }

  /** A blank system property is treated exactly as if it were absent. */
  lemma BlankSystemPropertyIsAbsent(src: Sources, key: string, blank: string, defaultValue: Option<string>)
    requires IsBlank(blank)
    ensures Get(src.(systemProperties := src.systemProperties[key := blank]), key, defaultValue)
         == Get(src.(systemProperties := src.systemProperties - {key}), key, defaultValue)
  {
  }

  /** A blank environment value is treated exactly as if it were absent. */
  lemma BlankEnvironmentIsAbsent(src: Sources, key: string, blank: string, defaultValue: Option<string>)
    requires IsBlank(blank)
    ensures Get(src.(environment := src.environment[key := blank]), key, defaultValue)
         == Get(src.(environment := src.environment - {key}), key, defaultValue)
  {
  }

  /** A blank properties-file value is treated exactly as if it were absent. */
  lemma BlankPropertyIsAbsent(src: Sources, key: string, blank: string, defaultValue: Option<string>)
    requires IsBlank(blank)
    ensures Get(src.(properties := src.properties[key := blank]), key, defaultValue)
         == Get(src.(properties := src.properties - {key}), key, defaultValue)
  {
  }

  /** Lookups of one key do not depend on the other keys' values. */
  lemma GetDependsOnlyOnKey(src: Sources, other: string, v: string, key: string, defaultValue: Option<string>)
    requires other != key
    ensures Get(src.(systemProperties := src.systemProperties[other := v]), key, defaultValue)
         == Get(src, key, defaultValue)
    ensures Get(src.(environment := src.environment[other := v]), key, defaultValue)
         == Get(src, key, defaultValue)
    ensures Get(src.(properties := src.properties[other := v]), key, defaultValue)
         == Get(src, key, defaultValue)
  {
  }
}
