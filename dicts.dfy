/**
 * The dictionaries that `to_dict` produces and `from_dict` reads: string
 * keys, and integer, string, list or dictionary values. Reading a key that
 * is absent raises KeyError; `get` falls back to a default instead.
 */
module Dicts {
  import opened Wrappers

  datatype Value = VInt(i: int) | VStr(s: string) | VList(items: seq<Value>) | VDict(fields: map<string, Value>)

  type Dict = map<string, Value>

  /** KeyError for an absent key; TypeError for a value of another kind than the field needs. */
  datatype DictError = KeyError(key: string) | TypeError(key: string)

  /** `data[key]` read as an integer. */
  function GetInt(d: Dict, key: string): (r: Result<int, DictError>)
    ensures r.Success? <==> key in d && d[key].VInt?
    ensures r.Success? ==> d[key] == VInt(r.value)
    ensures key !in d ==> r == Failure(KeyError(key))
  {
    if key !in d then Failure(KeyError(key))
    else if d[key].VInt? then Success(d[key].i)
    else Failure(TypeError(key))
  }

  /** `data[key]` read as a string. */
  function GetStr(d: Dict, key: string): (r: Result<string, DictError>)
    ensures r.Success? <==> key in d && d[key].VStr?
    ensures r.Success? ==> d[key] == VStr(r.value)
    ensures key !in d ==> r == Failure(KeyError(key))
  {
    if key !in d then Failure(KeyError(key))
    else if d[key].VStr? then Success(d[key].s)
    else Failure(TypeError(key))
  }

  /** `data[key]` read as a list. */
  function GetList(d: Dict, key: string): (r: Result<seq<Value>, DictError>)
    ensures r.Success? <==> key in d && d[key].VList?
    ensures r.Success? ==> d[key] == VList(r.value)
    ensures key !in d ==> r == Failure(KeyError(key))
  {
    if key !in d then Failure(KeyError(key))
    else if d[key].VList? then Success(d[key].items)
    else Failure(TypeError(key))
  }

  /** `data.get(key, default)` read as an integer. */
  function GetIntOr(d: Dict, key: string, fallback: int): (r: Result<int, DictError>)
    ensures key !in d ==> r == Success(fallback)
    ensures key in d ==> r == GetInt(d, key)
  {
    if key !in d then Success(fallback) else GetInt(d, key)
  }

  /** `data.get(key, default)` read as a string. */
  function GetStrOr(d: Dict, key: string, fallback: string): (r: Result<string, DictError>)
    ensures key !in d ==> r == Success(fallback)
    ensures key in d ==> r == GetStr(d, key)
  {
    if key !in d then Success(fallback) else GetStr(d, key)
  }
}
