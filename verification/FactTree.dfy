/**
 Nested facts and their undo.

 Models `_parse_key`, `get_fact`, and the `mutate` closures of `set_fact` and
 `rollback_set_fact` in runtime_core/sandbox.py. The closures walk down nested
 dictionaries and change them in place; here each walk returns the changed tree.
 */
module FactTree {
  import opened Results
  import opened Strings
  import opened JsonValues

  type Facts = map<string, Json>

  /** A fact key split at its dots. */
  type FactPath = p: seq<string> | p != [] witness ["fact"]

  predicate IsSegment(s: string) {
    && 1 <= |s| <= 64
    && forall i :: 0 <= i < |s| ==>
      ('A' <= s[i] <= 'Z') || ('a' <= s[i] <= 'z') || ('0' <= s[i] <= '9') || s[i] == '_' || s[i] == '-'
  }

  function StripEach(parts: seq<string>): (r: seq<string>)
    ensures |r| == |parts|
  {
    seq(|parts|, i requires 0 <= i < |parts| => Strip(parts[i]))
  }

  /** `_parse_key`. */
  function ParseKey(key: string): Option<FactPath> {
    var parts := StripEach(SplitOn(key, '.'));
    if forall i :: 0 <= i < |parts| ==> IsSegment(parts[i]) then Some(parts) else None
  }

  /** The object at `part`, or an empty one where there is none. */
  function Child(facts: Facts, part: string): Facts {
    if part in facts && facts[part].JObject? then facts[part].fields else map[]
  }

  /** `get_fact`. */
  function Get(facts: Facts, path: FactPath): Option<Json>
    decreases |path|
  {
    if path[0] !in facts then None
    else if |path| == 1 then Some(facts[path[0]])
    else if facts[path[0]].JObject? then Get(facts[path[0]].fields, path[1..])
    else None
  }

  /** `set_fact`: whatever stands in the way of the path gives way to an object. */
  function Set(facts: Facts, path: FactPath, value: Json): Facts
    decreases |path|
  {
    if |path| == 1 then facts[path[0] := value]
    else facts[path[0] := JObject(Set(Child(facts, path[0]), path[1..], value))]
  }

  /** What `set_fact` returns for its rollback: the previous value, if there was one. */
  function Previous(facts: Facts, path: FactPath): Option<Json>
    decreases |path|
  {
    if |path| > 1 then Previous(Child(facts, path[0]), path[1..])
    else if path[0] in facts then Some(facts[path[0]])
    else None
  }

  /** `rollback_set_fact`. */
  function Undo(facts: Facts, path: FactPath, previous: Option<Json>): Facts
    decreases |path|
  {
    if |path| > 1 then facts[path[0] := JObject(Undo(Child(facts, path[0]), path[1..], previous))]
    else if previous.Some? then facts[path[0] := previous.value]
    else facts - {path[0]}
  }

  function SetThenUndo(facts: Facts, path: FactPath, value: Json): Facts {
    Undo(Set(facts, path, value), path, Previous(facts, path))
  }

  predicate ProperPrefix(a: FactPath, b: FactPath) {
    a < b
  }

  /** Every proper prefix of the path is an object already. */
  predicate ObjectsAlong(facts: Facts, path: FactPath)
    decreases |path|
  {
    |path| > 1 ==> path[0] in facts && facts[path[0]].JObject? && ObjectsAlong(facts[path[0]].fields, path[1..])
  }

  // ---------------------------------------------------------------------
  // Reading back
  // ---------------------------------------------------------------------

  /**
   A fact that was set is found, the keys below it read from the value alone, and every key
   that neither extends nor contains it reads as before.
   */
  lemma {:induction false} SetThenGet(facts: Facts, path: FactPath, value: Json, other: FactPath)
    ensures Get(Set(facts, path, value), path) == Some(value)
    ensures Get(Set(facts, path, value), path + other) == if value.JObject? then Get(value.fields, other) else None
    ensures !(other <= path) && !(path <= other) ==> Get(Set(facts, path, value), other) == Get(facts, other)
    decreases |path|
  {
    SetThenGetBelow(facts, path, value, other);
    if |path| > 1 {
      SetThenGet(Child(facts, path[0]), path[1..], value, if |other| > 1 then other[1..] else path[1..]);
      if |other| > 1 && other[0] == path[0] {
        assert other == [other[0]] + other[1..] && path == [path[0]] + path[1..];
        GetInEmpty(other[1..]);
      }
    }
  }

  lemma {:induction false} SetThenGetBelow(facts: Facts, path: FactPath, value: Json, below: FactPath)
    ensures Get(Set(facts, path, value), path + below) == if value.JObject? then Get(value.fields, below) else None
    decreases |path|
  {
    assert (path + below)[1..] == path[1..] + below;
    if |path| > 1 {
      SetThenGetBelow(Child(facts, path[0]), path[1..], value, below);
    }
  }

  lemma GetInEmpty(path: FactPath)
    ensures Get(map[], path) == None
  {
  }

  lemma OnePartIsPrefix(other: FactPath, path: FactPath)
    requires |path| > 1 && other[0] == path[0]
    ensures |other| == 1 ==> ProperPrefix(other, path)
  {
    if |other| == 1 {
      assert other == path[..1];
    }
  }

  /**
   Undoing a set leaves every key reading as before, except the proper prefixes of the
   written key.
   */
  lemma {:induction false} UndoRestoresReads(facts: Facts, path: FactPath, value: Json, other: FactPath)
    requires !ProperPrefix(other, path)
    ensures Get(SetThenUndo(facts, path, value), other) == Get(facts, other)
    decreases |path|
  {
    if |path| == 1 {
      UndoOfLast(facts, path, value);
    } else {
      UndoStep(facts, path, value);
      if other[0] == path[0] {
        OnePartIsPrefix(other, path);
        assert other == [other[0]] + other[1..] && path == [path[0]] + path[1..];
        UndoRestoresReads(Child(facts, path[0]), path[1..], value, other[1..]);
        GetInEmpty(other[1..]);
      }
    }
  }

  lemma UndoOfLast(facts: Facts, path: FactPath, value: Json)
    requires |path| == 1
    ensures SetThenUndo(facts, path, value) == facts
  {
  }

  lemma UndoStep(facts: Facts, path: FactPath, value: Json)
    requires |path| > 1
    ensures SetThenUndo(facts, path, value)
         == facts[path[0] := JObject(SetThenUndo(Child(facts, path[0]), path[1..], value))]
  {
    var changed := Set(facts, path, value);
    assert Child(changed, path[0]) == Set(Child(facts, path[0]), path[1..], value);
  }

  /** The whole tree is restored exactly when every proper prefix of the key was an object. */
  lemma {:induction false} UndoIsExactAlongObjects(facts: Facts, path: FactPath, value: Json)
    ensures SetThenUndo(facts, path, value) == facts <==> ObjectsAlong(facts, path)
    decreases |path|
  {
    if |path| == 1 {
      UndoOfLast(facts, path, value);
    } else {
      UndoStep(facts, path, value);
      UndoIsExactAlongObjects(Child(facts, path[0]), path[1..], value);
      if path[0] in facts && facts[path[0]].JObject? {
        var restored := JObject(SetThenUndo(Child(facts, path[0]), path[1..], value));
        assert facts[path[0] := restored][path[0]] == restored;
        assert restored == facts[path[0]] ==> facts[path[0] := restored] == facts;
      } else {
        assert facts[path[0] := JObject(SetThenUndo(Child(facts, path[0]), path[1..], value))][path[0]].JObject?;
      }
    }
  }
}
