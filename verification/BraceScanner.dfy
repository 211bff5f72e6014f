/**
 The two brace scanners of runtime_core/model.py.

 `ExtractBalancedJson` knows strings and escapes; `ExtractBalancedJsonObjects` only counts
 braces. Both undo the printing of JSON objects, the second where no string shows a brace.
 */
module BraceScanner {
  import opened Results
  import opened Sequences
  import opened JsonText

  // ---------------------------------------------------------------------
  // The string-aware scanner
  // ---------------------------------------------------------------------

  datatype Scan = Scan(depth: int, inString: bool, escape: bool)

  /** One character, unless it closes the object. */
  function Step(s: Scan, c: char): Scan {
    if s.escape then s.(escape := false)
    else if c == '\\' && s.inString then s.(escape := true)
    else if c == '"' then s.(inString := !s.inString)
    else if s.inString then s
    else if c == '{' then s.(depth := s.depth + 1)
    else if c == '}' then s.(depth := s.depth - 1)
    else s
  }

  predicate Closes(s: Scan, c: char) {
    !s.escape && !s.inString && c == '}' && s.depth == 1
  }

  /** Where the object closes, scanning from `i`. */
  function ClosedFrom(text: string, i: nat, s: Scan): (r: Option<nat>)
    requires i <= |text|
    ensures r.Some? ==> i <= r.value < |text|
    decreases |text| - i
  {
    if i == |text| then None
    else if Closes(s, text[i]) then Some(i)
    else ClosedFrom(text, i + 1, Step(s, text[i]))
  }

  /** `_extract_balanced_json` as a function. */
  function BalancedJson(text: string, start: nat): Option<string> {
    if start >= |text| || text[start] != '{' then None
    else
      var close := ClosedFrom(text, start, Scan(0, false, false));
      if close.Some? then Some(text[start..close.value + 1]) else None
  }

  method ExtractBalancedJson(text: string, start: nat) returns (r: Option<string>)
    ensures r == BalancedJson(text, start)
  {
    if start >= |text| || text[start] != '{' {
      return None;
    }
    var depth, inString, escape := 0, false, false;
    var i := start;
    while i < |text|
      invariant start <= i <= |text|
      invariant ClosedFrom(text, i, Scan(depth, inString, escape)) == ClosedFrom(text, start, Scan(0, false, false))
    {
      var ch := text[i];
      if escape {
        escape := false;
      } else if ch == '\\' && inString {
        escape := true;
      } else if ch == '"' {
        inString := !inString;
      } else if inString {
      } else if ch == '{' {
        depth := depth + 1;
      } else if ch == '}' {
        depth := depth - 1;
        if depth == 0 {
          return Some(text[start..i + 1]);
        }
      }
      i := i + 1;
    }
    return None;
  }

  // ---------------------------------------------------------------------
  // Scanning printed text
  // ---------------------------------------------------------------------

  /** The state after the text, if nothing in it closes the object. */
  function Through(s: Scan, text: string): Option<Scan> {
    if text == "" then Some(s)
    else
      var before := Through(s, text[..|text| - 1]);
      if before.None? || Closes(before.value, text[|text| - 1]) then None
      else Some(Step(before.value, text[|text| - 1]))
  }

  lemma {:induction false} ThroughConcat(s: Scan, a: string, b: string)
    requires Through(s, a).Some?
    ensures Through(s, a + b) == Through(Through(s, a).value, b)
  {
    if b == "" {
      assert a + b == a;
    } else {
      assert (a + b)[..|a + b| - 1] == a + b[..|b| - 1];
      ThroughConcat(s, a, b[..|b| - 1]);
    }
  }

  /** Text that leaves the scanner where it was. */
  ghost predicate Neutral(s: Scan, text: string) {
    Through(s, text) == Some(s)
  }

  lemma NeutralConcat(s: Scan, a: string, b: string)
    requires Neutral(s, a) && Neutral(s, b)
    ensures Neutral(s, a + b)
  {
    ThroughConcat(s, a, b);
  }

  lemma {:induction false} PlainIsNeutral(s: Scan, text: string)
    requires !s.inString && !s.escape
    requires forall i :: 0 <= i < |text| ==> text[i] !in {'{', '}', '"'}
    ensures Neutral(s, text)
  {
    if text != "" {
      PlainIsNeutral(s, text[..|text| - 1]);
    }
  }

  lemma GapIsNeutral(s: Scan, gap: string)
    requires !s.inString && !s.escape && IsGap(gap)
    ensures Neutral(s, gap)
  {
    PlainIsNeutral(s, gap);
  }

  lemma {:induction false} QuotedIsNeutral(s: Scan, text: string)
    requires s.inString && !s.escape
    requires forall i :: 0 <= i < |text| ==> text[i] !in {'"', '\\'}
    ensures Neutral(s, text)
  {
    if text != "" {
      QuotedIsNeutral(s, text[..|text| - 1]);
    }
  }

  lemma ItemIsNeutral(s: Scan, item: Item)
    requires s.inString && !s.escape && ItemOk(item)
    ensures Neutral(s, PrintItem(item))
  {
    match item
    case Unescaped(c) => QuotedIsNeutral(s, [c]);
    case Short(c) => EscapeIsNeutral(s, c);
    case Unicode(digits) =>
      EscapeIsNeutral(s, 'u');
      QuotedIsNeutral(s, digits);
      NeutralConcat(s, ['\\', 'u'], digits);
  }

  lemma EscapeIsNeutral(s: Scan, c: char)
    requires s.inString && !s.escape
    ensures Neutral(s, ['\\', c])
  {
    assert ['\\', c][..1] == ['\\'] && ['\\'][..0] == "";
    assert Through(s, ['\\']) == Some(s.(escape := true));
  }

  lemma {:induction false} ItemsAreNeutral(s: Scan, items: seq<Item>)
    requires s.inString && !s.escape && ItemsOk(items)
    ensures Neutral(s, PrintItems(items))
  {
    if items != [] {
      var k := |items| - 1;
      ItemsAreNeutral(s, items[..k]);
      ItemIsNeutral(s, items[k]);
      NeutralConcat(s, PrintItems(items[..k]), PrintItem(items[k]));
    }
  }

  lemma OneChar(s: Scan, c: char)
    ensures Through(s, [c]) == if Closes(s, c) then None else Some(Step(s, c))
  {
    assert [c][..0] == "";
  }

  /** A string literal leaves the scanner where it was, whatever braces it shows. */
  lemma StringIsNeutral(s: Scan, items: seq<Item>)
    requires !s.inString && !s.escape && ItemsOk(items)
    ensures Neutral(s, PrintString(items))
  {
    var inside := s.(inString := true);
    OneChar(s, '"');
    ItemsAreNeutral(inside, items);
    ThroughConcat(s, "\"", PrintItems(items));
    OneChar(inside, '"');
    ThroughConcat(s, "\"" + PrintItems(items), "\"");
  }

  lemma MarkIsNeutral(s: Scan, mark: char)
    requires !s.inString && !s.escape && mark in {',', ':', '[', ']'}
    ensures Neutral(s, [mark])
  {
    OneChar(s, mark);
  }

  lemma {:induction false} ValueIsNeutral(s: Scan, v: Value)
    requires !s.inString && !s.escape && s.depth >= 1 && ValueOk(v)
    ensures Neutral(s, Print(v))
    decreases v
  {
    match v
    case Scalar(text) => PlainIsNeutral(s, text);
    case Str(items) => StringIsNeutral(s, items);
    case Arr(gap, elements) =>
      var body := if elements.NoElement? then gap else PrintElements(elements);
      if elements.NoElement? {
        GapIsNeutral(s, gap);
      } else {
        ElementsAreNeutral(s, elements);
      }
      MarkIsNeutral(s, '[');
      MarkIsNeutral(s, ']');
      NeutralConcat(s, "[", body);
      NeutralConcat(s, "[" + body, "]");
    case Obj(gap, members) =>
      var inside := s.(depth := s.depth + 1);
      BodyIsNeutral(inside, gap, members);
      BracesAreNeutral(s, inside, PrintBody(gap, members));
  }

  lemma BracesAreNeutral(s: Scan, inside: Scan, body: string)
    requires !s.inString && !s.escape && s.depth >= 1 && inside == s.(depth := s.depth + 1)
    requires Neutral(inside, body)
    ensures Neutral(s, "{" + body + "}")
  {
    OneChar(s, '{');
    ThroughConcat(s, "{", body);
    OneChar(inside, '}');
    ThroughConcat(s, "{" + body, "}");
  }

  lemma {:induction false} BodyIsNeutral(s: Scan, gap: string, members: Members)
    requires !s.inString && !s.escape && s.depth >= 1 && IsGap(gap) && MembersOk(members)
    ensures Neutral(s, PrintBody(gap, members))
    decreases members, 1
  {
    if members.NoMember? {
      GapIsNeutral(s, gap);
    } else {
      MembersAreNeutral(s, members);
    }
  }

  lemma {:induction false} ElementsAreNeutral(s: Scan, elements: Elements)
    requires !s.inString && !s.escape && s.depth >= 1 && ElementsOk(elements)
    ensures Neutral(s, PrintElements(elements))
    decreases elements
  {
    if elements.Element? {
      var e := elements;
      GapIsNeutral(s, e.before);
      ValueIsNeutral(s, e.value);
      GapIsNeutral(s, e.after);
      NeutralConcat(s, e.before, Print(e.value));
      NeutralConcat(s, e.before + Print(e.value), e.after);
      var head := e.before + Print(e.value) + e.after;
      if e.rest.NoElement? {
        assert head + "" == head;
      } else {
        ElementsAreNeutral(s, e.rest);
        MarkIsNeutral(s, ',');
        NeutralConcat(s, ",", PrintElements(e.rest));
        NeutralConcat(s, head, "," + PrintElements(e.rest));
      }
    }
  }

  lemma KeyIsNeutral(s: Scan, before: string, key: seq<Item>, afterKey: string)
    requires !s.inString && !s.escape && IsGap(before) && ItemsOk(key) && IsGap(afterKey)
    ensures Neutral(s, before + PrintString(key) + afterKey + ":")
  {
    GapIsNeutral(s, before);
    StringIsNeutral(s, key);
    GapIsNeutral(s, afterKey);
    MarkIsNeutral(s, ':');
    NeutralConcat(s, before, PrintString(key));
    NeutralConcat(s, before + PrintString(key), afterKey);
    NeutralConcat(s, before + PrintString(key) + afterKey, ":");
  }

  lemma {:induction false} MembersAreNeutral(s: Scan, members: Members)
    requires !s.inString && !s.escape && s.depth >= 1 && MembersOk(members)
    ensures Neutral(s, PrintMembers(members))
    decreases members, 0
  {
    if members.Member? {
      var m := members;
      var key := m.before + PrintString(m.key) + m.afterKey + ":";
      KeyIsNeutral(s, m.before, m.key, m.afterKey);
      GapIsNeutral(s, m.beforeValue);
      ValueIsNeutral(s, m.value);
      GapIsNeutral(s, m.after);
      NeutralConcat(s, key, m.beforeValue);
      NeutralConcat(s, key + m.beforeValue, Print(m.value));
      NeutralConcat(s, key + m.beforeValue + Print(m.value), m.after);
      var head := key + m.beforeValue + Print(m.value) + m.after;
      if m.rest.NoMember? {
        assert head + "" == head;
      } else {
        MembersAreNeutral(s, m.rest);
        MarkIsNeutral(s, ',');
        NeutralConcat(s, ",", PrintMembers(m.rest));
        NeutralConcat(s, head, "," + PrintMembers(m.rest));
      }
    }
  }

  lemma {:induction false} ClosedAfter(text: string, i: nat, s: Scan, part: string)
    requires i + |part| <= |text| && text[i..i + |part|] == part && Through(s, part).Some?
    ensures ClosedFrom(text, i, s) == ClosedFrom(text, i + |part|, Through(s, part).value)
  {
    if part != "" {
      var k := |part| - 1;
      assert text[i..i + k] == part[..k] && text[i + k] == part[k];
      ClosedAfter(text, i, s, part[..k]);
    }
  }

  /**
   Scanning undoes printing: from the opening brace of a printed object the string-aware
   scanner returns exactly that object, whatever comes before and after it.
   */
  lemma BalancedJsonUndoesPrinting(before: string, gap: string, members: Members, after: string)
    requires ValueOk(Obj(gap, members))
    ensures var printed := Print(Obj(gap, members));
      BalancedJson(before + printed + after, |before|) == Some(printed)
  {
    var body := PrintBody(gap, members);
    var printed := Print(Obj(gap, members));
    var text := before + printed + after;
    var outside, inside := Scan(0, false, false), Scan(1, false, false);
    BodyIsNeutral(inside, gap, members);
    OneChar(outside, '{');
    ThroughConcat(outside, "{", body);
    var n := |before| + 1 + |body|;
    assert text[|before|..n] == "{" + body && text[n] == '}';
    ClosedAfter(text, |before|, outside, "{" + body);
    assert text[|before|..n + 1] == printed;
  }

  lemma {:induction false} ThroughPrefix(s: Scan, text: string, k: nat)
    requires k <= |text| && Through(s, text).Some?
    ensures Through(s, text[..k]).Some?
  {
    if k < |text| {
      assert text[..|text| - 1][..k] == text[..k];
      ThroughPrefix(s, text[..|text| - 1], k);
    } else {
      assert text[..k] == text;
    }
  }

  /** Nothing is extracted from an object that is cut short anywhere. */
  lemma CutObjectIsNotExtracted(before: string, gap: string, members: Members, k: nat)
    requires ValueOk(Obj(gap, members)) && k < |Print(Obj(gap, members))|
    ensures BalancedJson(before + Print(Obj(gap, members))[..k], |before|) == None
  {
    var body := PrintBody(gap, members);
    var part := Print(Obj(gap, members))[..k];
    var text := before + part;
    var outside, inside := Scan(0, false, false), Scan(1, false, false);
    BodyIsNeutral(inside, gap, members);
    OneChar(outside, '{');
    ThroughConcat(outside, "{", body);
    ThroughPrefix(outside, "{" + body, k);
    assert ("{" + body)[..k] == part;
    assert text[|before|..|text|] == part;
    if k > 0 {
      ClosedAfter(text, |before|, outside, part);
    }
  }

  // ---------------------------------------------------------------------
  // The plain scanner
  // ---------------------------------------------------------------------

  /** The brace depth, the text of the object begun, and the objects found. */
  datatype Count = Count(depth: nat, begun: string, objects: seq<string>)

  function CountStep(s: Count, c: char): Count {
    if c == '{' then s.(depth := s.depth + 1, begun := (if s.depth == 0 then "" else s.begun) + [c])
    else if s.depth == 0 then s
    else if c == '}' && s.depth == 1 then Count(0, "", s.objects + [s.begun + [c]])
    else if c == '}' then s.(depth := s.depth - 1, begun := s.begun + [c])
    else s.(begun := s.begun + [c])
  }

  function Counted(s: Count, text: string): Count {
    if text == "" then s else CountStep(Counted(s, text[..|text| - 1]), text[|text| - 1])
  }

  /** `extract_balanced_json_objects` as a function. */
  function BalancedObjects(text: string): seq<string> {
    Counted(Count(0, "", []), text).objects
  }

  method ExtractBalancedJsonObjects(text: string) returns (objects: seq<string>)
    ensures objects == BalancedObjects(text)
  {
    hide Counted;
    NothingCounted(text);
    objects := [];
    var start: Option<nat> := None;
    var depth := 0;
    ghost var begun := "";
    for index := 0 to |text|
      invariant depth >= 0 && (depth > 0 <==> start.Some?)
      invariant if start.Some? then start.value < index && begun == text[start.value..index] else begun == ""
      invariant Counted(Count(0, "", []), text[..index]) == Count(depth, begun, objects)
    {
      CountedOneMore(text, index);
      var ch := text[index];
      assert start.Some? ==> text[start.value..index + 1] == begun + [ch];
      begun := CountStep(Count(depth, begun, objects), ch).begun;
      if ch == '{' {
        if depth == 0 {
          start := Some(index);
        }
        depth := depth + 1;
      } else if ch == '}' {
        if depth == 0 {
          continue;
        }
        depth := depth - 1;
        if depth == 0 && start.Some? {
          objects := objects + [text[start.value..index + 1]];
          start := None;
        }
      }
    }
    assert text[..|text|] == text;
  }

  lemma NothingCounted(text: string)
    ensures Counted(Count(0, "", []), text[..0]) == Count(0, "", [])
  {
  }

  lemma CountedOneMore(text: string, i: nat)
    requires i < |text|
    ensures Counted(Count(0, "", []), text[..i + 1]) == CountStep(Counted(Count(0, "", []), text[..i]), text[i])
  {
    assert text[..i + 1][..i] == text[..i];
  }

  lemma {:induction false} CountedConcat(s: Count, a: string, b: string)
    ensures Counted(s, a + b) == Counted(Counted(s, a), b)
  {
    if b == "" {
      assert a + b == a;
    } else {
      assert (a + b)[..|a + b| - 1] == a + b[..|b| - 1];
      CountedConcat(s, a, b[..|b| - 1]);
    }
  }

  /** The text only adds to the object begun. */
  ghost predicate AddsTo(s: Count, text: string) {
    Counted(s, text) == s.(begun := s.begun + text)
  }

  ghost predicate Adds(text: string) {
    forall s: Count {:trigger AddsTo(s, text)} :: s.depth >= 1 ==> AddsTo(s, text)
  }

  lemma AddsBoth(s: Count, a: string, b: string)
    requires AddsTo(s, a) && AddsTo(s.(begun := s.begun + a), b)
    ensures AddsTo(s, a + b)
  {
    CountedConcat(s, a, b);
    Associative(s.begun, a, b);
  }

  lemma AddsConcat(a: string, b: string)
    requires Adds(a) && Adds(b)
    ensures Adds(a + b)
  {
    forall s: Count | s.depth >= 1
      ensures AddsTo(s, a + b)
    {
      assert AddsTo(s, a);
      AddsBoth(s, a, b);
    }
  }

  predicate NoBrace(text: string) {
    forall i :: 0 <= i < |text| ==> text[i] != '{' && text[i] != '}'
  }

  lemma CountOne(s: Count, c: char)
    ensures Counted(s, [c]) == CountStep(s, c)
  {
    assert [c][..0] == "";
  }

  lemma CharAdds(c: char)
    requires c != '{' && c != '}'
    ensures Adds([c])
  {
    forall s: Count | s.depth >= 1
      ensures AddsTo(s, [c])
    {
      CountOne(s, c);
    }
  }

  lemma {:induction false} NoBraceAdds(text: string)
    requires NoBrace(text)
    ensures Adds(text)
  {
    if text == "" {
      assert forall s: Count :: s.begun + "" == s.begun;
    } else {
      var k := |text| - 1;
      NoBraceAdds(text[..k]);
      CharAdds(text[k]);
      AddsConcat(text[..k], [text[k]]);
      assert text[..k] + [text[k]] == text;
    }
  }

  lemma {:induction false} ItemsShowNoBrace(items: seq<Item>)
    requires ItemsOk(items) && NoBraceIn(items)
    ensures NoBrace(PrintItems(items))
  {
    if items != [] {
      ItemsShowNoBrace(items[..|items| - 1]);
      assert NoBrace(PrintItem(items[|items| - 1]));
    }
  }

  lemma StringAdds(items: seq<Item>)
    requires ItemsOk(items) && NoBraceIn(items)
    ensures Adds(PrintString(items))
  {
    ItemsShowNoBrace(items);
    NoBraceAdds(PrintString(items));
  }

  lemma Wrapped(before: string, body: string)
    ensures before + ['{'] + body + ['}'] == before + ("{" + body + "}")
  {
  }

  lemma BracesAddTo(s: Count, body: string)
    requires Adds(body) && s.depth >= 1
    ensures AddsTo(s, "{" + body + "}")
  {
    var inside := CountStep(s, '{');
    CountOne(s, '{');
    CountedConcat(s, "{", body);
    assert AddsTo(inside, body);
    CountOne(inside.(begun := inside.begun + body), '}');
    CountedConcat(s, "{" + body, "}");
    Wrapped(s.begun, body);
  }

  lemma BracesAdd(body: string)
    requires Adds(body)
    ensures Adds("{" + body + "}")
  {
    forall s: Count | s.depth >= 1
      ensures AddsTo(s, "{" + body + "}")
    {
      BracesAddTo(s, body);
    }
  }

  /** Outside every object, braces around such text make one more. */
  lemma BracesMakeObject(objects: seq<string>, body: string)
    requires Adds(body)
    ensures Counted(Count(0, "", objects), "{" + body + "}") == Count(0, "", objects + ["{" + body + "}"])
  {
    var s := Count(0, "", objects);
    var inside := Count(1, "" + ['{'], objects);
    CountOne(s, '{');
    CountedConcat(s, "{", body);
    assert AddsTo(inside, body);
    assert Counted(s, "{" + body) == Count(1, "" + ['{'] + body, objects);
    CountOne(Count(1, "" + ['{'] + body, objects), '}');
    CountedConcat(s, "{" + body, "}");
    Wrapped("", body);
    assert "" + ("{" + body + "}") == "{" + body + "}";
  }

  lemma {:induction false} ValueAdds(v: Value)
    requires ValueOk(v) && BraceFree(v)
    ensures Adds(Print(v))
    decreases v
  {
    match v
    case Scalar(text) => NoBraceAdds(text);
    case Str(items) => StringAdds(items);
    case Arr(gap, elements) =>
      if elements.NoElement? {
        NoBraceAdds("[" + gap + "]");
      } else {
        ElementsAdd(elements);
        NoBraceAdds("[");
        NoBraceAdds("]");
        AddsConcat("[", PrintElements(elements));
        AddsConcat("[" + PrintElements(elements), "]");
      }
    case Obj(gap, members) =>
      BodyAdds(gap, members);
      BracesAdd(PrintBody(gap, members));
  }

  lemma {:induction false} BodyAdds(gap: string, members: Members)
    requires IsGap(gap) && MembersOk(members) && BraceFreeMembers(members)
    ensures Adds(PrintBody(gap, members))
    decreases members, 1
  {
    if members.NoMember? {
      NoBraceAdds(gap);
    } else {
      MembersAdd(members);
    }
  }

  lemma {:induction false} ElementsAdd(elements: Elements)
    requires ElementsOk(elements) && BraceFreeElements(elements)
    ensures Adds(PrintElements(elements))
    decreases elements
  {
    if elements.NoElement? {
      NoBraceAdds("");
    } else {
      var e := elements;
      NoBraceAdds(e.before);
      ValueAdds(e.value);
      NoBraceAdds(e.after);
      AddsConcat(e.before, Print(e.value));
      AddsConcat(e.before + Print(e.value), e.after);
      ElementsAdd(e.rest);
      NoBraceAdds(",");
      AddsConcat(",", PrintElements(e.rest));
      var more := if e.rest.NoElement? then "" else "," + PrintElements(e.rest);
      AddsConcat(e.before + Print(e.value) + e.after, more);
    }
  }

  lemma KeyAdds(before: string, key: seq<Item>, afterKey: string)
    requires IsGap(before) && ItemsOk(key) && NoBraceIn(key) && IsGap(afterKey)
    ensures Adds(before + PrintString(key) + afterKey + ":")
  {
    NoBraceAdds(before);
    StringAdds(key);
    NoBraceAdds(afterKey + ":");
    AddsConcat(before, PrintString(key));
    AddsConcat(before + PrintString(key), afterKey + ":");
    assert before + PrintString(key) + (afterKey + ":") == before + PrintString(key) + afterKey + ":";
  }

  lemma {:induction false} MembersAdd(members: Members)
    requires MembersOk(members) && BraceFreeMembers(members)
    ensures Adds(PrintMembers(members))
    decreases members, 0
  {
    if members.NoMember? {
      NoBraceAdds("");
    } else {
      var m := members;
      var key := m.before + PrintString(m.key) + m.afterKey + ":";
      KeyAdds(m.before, m.key, m.afterKey);
      NoBraceAdds(m.beforeValue);
      ValueAdds(m.value);
      NoBraceAdds(m.after);
      AddsConcat(key, m.beforeValue);
      AddsConcat(key + m.beforeValue, Print(m.value));
      AddsConcat(key + m.beforeValue + Print(m.value), m.after);
      MembersAdd(m.rest);
      NoBraceAdds(",");
      AddsConcat(",", PrintMembers(m.rest));
      var more := if m.rest.NoMember? then "" else "," + PrintMembers(m.rest);
      AddsConcat(key + m.beforeValue + Print(m.value) + m.after, more);
    }
  }

  /** Outside every object, text without an opening brace is skipped, closing braces too. */
  lemma {:induction false} ProseIsSkipped(s: Count, prose: string)
    requires s.depth == 0 && forall i :: 0 <= i < |prose| ==> prose[i] != '{'
    ensures Counted(s, prose) == s
  {
    if prose != "" {
      ProseIsSkipped(s, prose[..|prose| - 1]);
    }
  }

  lemma ObjectIsFound(objects: seq<string>, gap: string, members: Members)
    requires ValueOk(Obj(gap, members)) && BraceFree(Obj(gap, members))
    ensures var printed := Print(Obj(gap, members));
      Counted(Count(0, "", objects), printed) == Count(0, "", objects + [printed])
  {
    BodyAdds(gap, members);
    BracesMakeObject(objects, PrintBody(gap, members));
  }

  /** Some prose and the object after it. */
  datatype Passage = Passage(prose: string, gap: string, members: Members)

  predicate PassageOk(p: Passage) {
    && (forall i :: 0 <= i < |p.prose| ==> p.prose[i] != '{')
    && ValueOk(Obj(p.gap, p.members)) && BraceFree(Obj(p.gap, p.members))
  }

  function TextOf(passages: seq<Passage>): string {
    if passages == [] then ""
    else
      var last := passages[|passages| - 1];
      TextOf(passages[..|passages| - 1]) + (last.prose + Print(Obj(last.gap, last.members)))
  }

  function ObjectsOf(passages: seq<Passage>): seq<string> {
    if passages == [] then []
    else
      var last := passages[|passages| - 1];
      ObjectsOf(passages[..|passages| - 1]) + [Print(Obj(last.gap, last.members))]
  }

  lemma {:induction false} PassagesAreFound(passages: seq<Passage>)
    requires forall i :: 0 <= i < |passages| ==> PassageOk(passages[i])
    ensures Counted(Count(0, "", []), TextOf(passages)) == Count(0, "", ObjectsOf(passages))
  {
    if passages != [] {
      var k := |passages| - 1;
      var last := passages[k];
      PassagesAreFound(passages[..k]);
      var before := Count(0, "", ObjectsOf(passages[..k]));
      CountedConcat(Count(0, "", []), TextOf(passages[..k]), last.prose + Print(Obj(last.gap, last.members)));
      CountedConcat(before, last.prose, Print(Obj(last.gap, last.members)));
      ProseIsSkipped(before, last.prose);
      ObjectIsFound(before.objects, last.gap, last.members);
    }
  }

  /**
   From prose that opens no brace, interleaved with printed objects whose strings show no
   brace, the plain scanner returns exactly the objects, in order.
   */
  lemma {:induction false} BalancedObjectsUndoPrinting(passages: seq<Passage>, tail: string)
    requires forall i :: 0 <= i < |passages| ==> PassageOk(passages[i])
    requires forall i :: 0 <= i < |tail| ==> tail[i] != '{'
    ensures BalancedObjects(TextOf(passages) + tail) == ObjectsOf(passages)
  {
    PassagesAreFound(passages);
    CountedConcat(Count(0, "", []), TextOf(passages), tail);
    ProseIsSkipped(Count(0, "", ObjectsOf(passages)), tail);
  }

  // ---------------------------------------------------------------------
  // Exactly which texts are found whole
  // ---------------------------------------------------------------------

  /** Opening braces less closing braces. */
  function Opens(text: string): int {
    if text == "" then 0
    else
      var c := text[|text| - 1];
      Opens(text[..|text| - 1]) + if c == '{' then 1 else if c == '}' then -1 else 0
  }

  /** The braces open at the first character and balance at the last one, not before. */
  ghost predicate BalancesAtEnd(text: string) {
    && text != "" && text[0] == '{' && Opens(text) == 0
    && forall k :: 0 < k < |text| ==> Opens(text[..k]) > 0
  }

  lemma {:induction false} StillOpen(text: string, k: nat)
    requires 0 < k <= |text| && text[0] == '{' && forall j :: 0 < j <= k ==> Opens(text[..j]) > 0
    ensures Counted(Count(0, "", []), text[..k]) == Count(Opens(text[..k]), text[..k], [])
  {
    assert text[..k][..k - 1] == text[..k - 1];
    if k == 1 {
      CountOne(Count(0, "", []), '{');
      assert text[..1] == ['{'] && text[..0] == "";
    } else {
      StillOpen(text, k - 1);
      assert text[..k] == text[..k - 1] + [text[k - 1]];
    }
  }

  lemma ClosedNow(text: string, k: nat)
    requires 1 < k <= |text| && text[0] == '{' && forall j :: 0 < j < k ==> Opens(text[..j]) > 0
    requires Opens(text[..k]) == 0
    ensures Counted(Count(0, "", []), text[..k]) == Count(0, "", [text[..k]])
  {
    StillOpen(text, k - 1);
    assert text[..k][..k - 1] == text[..k - 1];
    assert text[..k] == text[..k - 1] + [text[k - 1]];
  }

  lemma {:induction false} ObjectsGrow(s: Count, text: string)
    ensures s.objects <= Counted(s, text).objects
  {
    if text != "" {
      ObjectsGrow(s, text[..|text| - 1]);
    }
  }

  /** The first point where the braces balance, if there is one before `n`. */
  lemma {:induction false} FirstBalance(text: string, n: nat) returns (k: nat)
    requires 0 < n <= |text| && text[0] == '{'
    ensures 0 < k <= n && (forall j :: 0 < j < k ==> Opens(text[..j]) > 0)
    ensures Opens(text[..k]) > 0 ==> k == n
    ensures Opens(text[..k]) >= 0
  {
    if n == 1 {
      assert text[..1] == ['{'] && ['{'][..0] == "";
      k := 1;
    } else {
      k := FirstBalance(text, n - 1);
      if Opens(text[..k]) > 0 {
        assert text[..n][..n - 1] == text[..n - 1];
        k := n;
      }
    }
  }

  lemma OpeningCounts(text: string)
    requires text != "" && text[0] == '{'
    ensures Opens(text[..1]) == 1
  {
    assert text[..1] == ['{'] && ['{'][..0] == "";
  }

  /** The plain scanner finds a text that opens a brace whole exactly when its braces, strings included, balance at its end. */
  lemma FoundWholeExactly(text: string)
    requires text != "" && text[0] == '{'
    ensures BalancedObjects(text) == [text] <==> BalancesAtEnd(text)
  {
    var k := FirstBalance(text, |text|);
    var init := Count(0, "", []);
    OpeningCounts(text);
    assert text[..|text|] == text;
    if Opens(text[..k]) > 0 {
      StillOpen(text, |text|);
    } else {
      ClosedNow(text, k);
      CountedConcat(init, text[..k], text[k..]);
      assert text[..k] + text[k..] == text;
      ObjectsGrow(Count(0, "", [text[..k]]), text[k..]);
      if k < |text| {
        assert BalancedObjects(text)[0] == text[..k] && |text[..k]| < |text|;
      }
    }
  }

  /** A closing brace in a string ends the object for the plain scanner only. */
  lemma BraceInStringSplitsObject()
    ensures var broken := Obj("", Member("", [Unescaped('}')], "", "", Scalar("1"), "", NoMember));
      && BalancedJson(Print(broken), 0) == Some(Print(broken))
      && BalancedObjects(Print(broken)) != [Print(broken)]
  {
    var members := Member("", [Unescaped('}')], "", "", Scalar("1"), "", NoMember);
    var text := Print(Obj("", members));
    BalancedJsonUndoesPrinting("", "", members, "");
    assert "" + text + "" == text;
    BrokenText(members);
    EarlyBalance(text);
    FoundWholeExactly(text);
  }

  lemma EarlyBalance(text: string)
    requires text == ['{', '"', '}', '"', ':', '1', '}']
    ensures !BalancesAtEnd(text)
  {
    assert text[..3][..2] == text[..2] && text[..2][..1] == text[..1] && text[..1][..0] == "";
    assert Opens(text[..1]) == 1;
    assert Opens(text[..2]) == 1;
    assert Opens(text[..3]) == 0;
  }

  lemma BrokenText(members: Members)
    requires members == Member("", [Unescaped('}')], "", "", Scalar("1"), "", NoMember)
    ensures Print(Obj("", members)) == ['{', '"', '}', '"', ':', '1', '}']
  {
    assert members.key[..0] == [];
    assert PrintString(members.key) == ['"', '}', '"'];
    assert PrintMembers(members) == ['"', '}', '"', ':', '1'];
    assert PrintBody("", members) == ['"', '}', '"', ':', '1'];
  }
}
