/** JSON paths: parsing them and extracting values (builtin_expression.py). */
module JsonPaths {
  import opened Wrappers
  import opened Decimals
  import opened SqlExpressions

  /** A decoded document; objects keep their keys in order. */
  datatype Json =
    | JNull
    | JBool(b: bool)
    | JNumber(n: real)
    | JText(s: string)
    | JList(items: seq<Json>)
    | JObject(fields: seq<(string, Json)>)

  datatype Part = Key(key: string) | Subscript(index: int) | Wildcard

  /** Python's whitespace, `ast.literal_eval` on a quoted text and integer conversion; `None` for an exception. */
  datatype Reader = Reader(
    space: char -> bool, literal: string -> Option<string>, integer: string -> Option<int>)

  // ---- parsing -------------------------------------------------------------

  predicate Delimiter(c: char) {
    c == '.' || c == '['
  }

  /** The end of a dotted key that begins at `i`. */
  function KeyEnd(path: string, i: nat): (end: nat)
    requires i <= |path|
    ensures i <= end <= |path|
    ensures forall j :: i <= j < end ==> !Delimiter(path[j])
    ensures end < |path| ==> Delimiter(path[end])
    decreases |path| - i
  {
    if i < |path| && !Delimiter(path[i]) then KeyEnd(path, i + 1) else i
  }

  /** `path.find("]", i)`. */
  function FindClose(path: string, i: nat): (end: Option<nat>)
    requires i <= |path|
    ensures end.Some? ==> i <= end.value < |path| && path[end.value] == ']'
    ensures end.Some? ==> forall j :: i <= j < end.value ==> path[j] != ']'
    ensures end.None? ==> forall j :: i <= j < |path| ==> path[j] != ']'
    decreases |path| - i
  {
    if i == |path| then None
    else if path[i] == ']' then Some(i)
    else FindClose(path, i + 1)
  }

  function Strip(r: Reader, token: string): string {
    if token != "" && r.space(token[0]) then Strip(r, token[1..])
    else if token != "" && r.space(token[|token| - 1]) then Strip(r, token[..|token| - 1])
    else token
  }

  function TokenPart(r: Reader, token: string): Option<Part> {
    if token == "*" then Some(Wildcard)
    else if token != "" && (token[0] == '\'' || token[0] == '"') then
      match r.literal(token)
      case None => None
      case Some(key) => Some(Key(key))
    else
      match r.integer(token)
      case None => None
      case Some(index) => Some(Subscript(index))
  }

  /** `_json_bracket_part`: the part in brackets at `i`, and the index after it. */
  function BracketPart(r: Reader, path: string, i: nat): (p: Option<(Part, nat)>)
    requires i < |path|
    ensures p.Some? ==> i < p.value.1 <= |path|
  {
    match FindClose(path, i + 1)
    case None => None
    case Some(end) =>
      match TokenPart(r, Strip(r, path[i + 1..end]))
      case None => None
      case Some(part) => Some((part, end + 1))
  }

  function DottedPart(key: string): Part {
    if key == "*" then Wildcard else Key(key)
  }

  /** The parts from index `i` on; `None` for an invalid path. */
  function ParseFrom(r: Reader, path: string, i: nat): Option<seq<Part>>
    requires i <= |path|
    decreases |path| - i
  {
    if i == |path| then
      Some([])
    else if path[i] == '.' then
      var end := KeyEnd(path, i + 1);
      if end == i + 1 then None
      else
        match ParseFrom(r, path, end)
        case None => None
        case Some(rest) => Some([DottedPart(path[i + 1..end])] + rest)
    else if path[i] == '[' then
      match BracketPart(r, path, i)
      case None => None
      case Some((part, next)) =>
        match ParseFrom(r, path, next)
        case None => None
        case Some(rest) => Some([part] + rest)
    else
      None
  }

  function Prepend(parts: seq<Part>, rest: Option<seq<Part>>): Option<seq<Part>> {
    if rest.None? then None else Some(parts + rest.value)
  }

  function ParsePath(r: Reader, path: string): Option<seq<Part>> {
    if path == "" || path[0] != '$' then None else ParseFrom(r, path, 1)
  }

  /** `_json_path`. */
  method JsonPath(r: Reader, path: string) returns (result: Option<seq<Part>>)
    ensures result == ParsePath(r, path)
  {
    if path == "" || path[0] != '$' {
      return None;
    }
    var parts: seq<Part> := [];
    var index := 1;
    PrependNothing(ParseFrom(r, path, 1));
    while index < |path|
      invariant 1 <= index <= |path|
      invariant ParsePath(r, path) == Prepend(parts, ParseFrom(r, path, index))
    {
      if path[index] == '.' {
        var start := index + 1;
        var end := start;
        while end < |path| && !Delimiter(path[end])
          invariant start <= end <= |path|
          invariant KeyEnd(path, start) == KeyEnd(path, end)
        {
          end := end + 1;
        }
        if end == start {
          return None;
        }
        PrependOne(parts, DottedPart(path[start..end]), ParseFrom(r, path, end));
        parts := parts + [DottedPart(path[start..end])];
        index := end;
        continue;
      }
      if path[index] == '[' {
        var found := BracketPart(r, path, index);
        if found.None? {
          return None;
        }
        PrependOne(parts, found.value.0, ParseFrom(r, path, found.value.1));
        parts := parts + [found.value.0];
        index := found.value.1;
        continue;
      }
      return None;
    }
    assert parts + [] == parts;
    result := Some(parts);
  }

  lemma PrependNothing(rest: Option<seq<Part>>)
    ensures Prepend([], rest) == rest
  {
    if rest.Some? {
      assert [] + rest.value == rest.value;
    }
  }

  lemma PrependOne(parts: seq<Part>, part: Part, rest: Option<seq<Part>>)
    ensures Prepend(parts, Prepend([part], rest)) == Prepend(parts + [part], rest)
    ensures Prepend([part], rest) == match rest case None => None case Some(ps) => Some([part] + ps)
  {
    if rest.Some? {
      assert parts + ([part] + rest.value) == (parts + [part]) + rest.value;
    }
  }

  // ---- printing ------------------------------------------------------------

  function Signed(n: int): string {
    if n < 0 then "-" + Decimal(-n) else Decimal(n)
  }

  /** A key that may follow a dot. */
  predicate Dotted(key: string) {
    key != "" && key != "*" && forall i :: 0 <= i < |key| ==> !Delimiter(key[i])
  }

  /** A key that may stand between single quotes in brackets. */
  predicate Quotable(key: string) {
    forall c :: c in key ==> c != '\'' && c != '\\' && c != ']' && c != '\n' && c != '\r' && c != '\0'
  }

  function Quoted(key: string): string {
    "'" + key + "'"
  }

  ghost predicate Lawful(r: Reader) {
    && (forall key :: Quotable(key) ==> r.literal(Quoted(key)) == Some(key))
    && (forall n :: r.integer(Signed(n)) == Some(n))
    && !r.space('\'') && !r.space('*') && !r.space('-') && (forall c :: IsDigit(c) ==> !r.space(c))
  }

  predicate Printable(part: Part) {
    part.Key? ==> Dotted(part.key) || Quotable(part.key)
  }

  function Token(part: Part): string {
    match part
    case Key(key) => Quoted(key)
    case Subscript(n) => Signed(n)
    case Wildcard => "*"
  }

  function PrintPart(part: Part): string {
    if part.Key? && Dotted(part.key) then "." + part.key else "[" + Token(part) + "]"
  }

  function PrintParts(parts: seq<Part>): string {
    if parts == [] then "" else PrintPart(parts[0]) + PrintParts(parts[1..])
  }

  lemma StripKeeps(r: Reader, token: string)
    requires token != "" && !r.space(token[0]) && !r.space(token[|token| - 1])
    ensures Strip(r, token) == token
  {
  }

  lemma SignedDigits(n: int)
    ensures Signed(n) != "" && (Signed(n)[0] == '-' || IsDigit(Signed(n)[0]))
    ensures IsDigit(Signed(n)[|Signed(n)| - 1])
    ensures forall c :: c in Signed(n) ==> c == '-' || IsDigit(c)
  {
    var s := Signed(n);
    var d := Decimal(if n < 0 then -n else n);
    assert d[0] in d && d[|d| - 1] in d;
    assert s[|s| - 1] == d[|d| - 1];
  }

  /** The token in brackets is read back as its part, and contains no closing bracket. */
  lemma TokenRoundTrip(r: Reader, part: Part)
    requires Lawful(r) && Printable(part) && (part.Key? ==> !Dotted(part.key))
    ensures TokenPart(r, Strip(r, Token(part))) == Some(part)
    ensures ']' !in Token(part)
  {
    hide Strip, Signed, Dotted;
    match part
    case Key(key) =>
      StripKeeps(r, Quoted(key));
      assert Quoted(key)[0] == '\'';
    case Subscript(n) =>
      SignedDigits(n);
      StripKeeps(r, Signed(n));
    case Wildcard =>
      StripKeeps(r, "*");
  }

  /** What follows a part is another part or nothing. */
  lemma PartsBegin(parts: seq<Part>)
    ensures PrintParts(parts) != "" ==> Delimiter(PrintParts(parts)[0])
  {
  }

  lemma KeyEndAt(path: string, i: nat, end: nat)
    requires i <= end <= |path| && (forall j :: i <= j < end ==> !Delimiter(path[j]))
    requires end < |path| ==> Delimiter(path[end])
    ensures KeyEnd(path, i) == end
  {
  }

  lemma FindCloseAt(path: string, i: nat, end: nat)
    requires i <= end < |path| && path[end] == ']' && forall j :: i <= j < end ==> path[j] != ']'
    ensures FindClose(path, i) == Some(end)
  {
  }

  lemma DottedStep(r: Reader, before: string, key: string, after: string)
    requires Dotted(key) && (after != "" ==> Delimiter(after[0]))
    ensures ParseFrom(r, before + ("." + key + after), |before|)
         == Prepend([Key(key)], ParseFrom(r, before + ("." + key + after), |before| + 1 + |key|))
  {
    hide BracketPart;
    var path, i := before + ("." + key + after), |before|;
    assert path[i] == '.' && path[i + 1..i + 1 + |key|] == key;
    forall j | i + 1 <= j < i + 1 + |key| ensures !Delimiter(path[j]) { assert path[j] == key[j - i - 1]; }
    assert after != "" ==> path[i + 1 + |key|] == after[0];
    KeyEndAt(path, i + 1, i + 1 + |key|);
  }

  lemma BracketAt(r: Reader, path: string, i: nat, token: string, part: Part)
    requires i + 1 + |token| < |path|
    requires path[i + 1..i + 1 + |token|] == token && path[i + 1 + |token|] == ']' && ']' !in token
    requires TokenPart(r, Strip(r, token)) == Some(part)
    ensures BracketPart(r, path, i) == Some((part, i + 2 + |token|))
  {
    hide Strip, TokenPart;
    forall j | i + 1 <= j < i + 1 + |token| ensures path[j] != ']' {
      assert path[j] == path[i + 1..i + 1 + |token|][j - i - 1];
      assert token[j - i - 1] in token;
    }
    FindCloseAt(path, i + 1, i + 1 + |token|);
  }

  lemma Enclosed(before: string, token: string, after: string)
    ensures var path, i := before + ("[" + token + "]" + after), |before|;
      && i + 1 + |token| < |path| && path[i] == '['
      && path[i + 1..i + 1 + |token|] == token && path[i + 1 + |token|] == ']'
  {
  }

  lemma ParseBracket(r: Reader, path: string, i: nat, part: Part, next: nat)
    requires i < |path| && path[i] == '[' && next <= |path| && BracketPart(r, path, i) == Some((part, next))
    ensures ParseFrom(r, path, i) == Prepend([part], ParseFrom(r, path, next))
  {
    hide BracketPart;
  }

  lemma BracketStep(r: Reader, before: string, part: Part, after: string)
    requires Lawful(r) && Printable(part) && (part.Key? ==> !Dotted(part.key))
    ensures ParseFrom(r, before + ("[" + Token(part) + "]" + after), |before|)
         == Prepend([part], ParseFrom(r, before + ("[" + Token(part) + "]" + after), |before| + 2 + |Token(part)|))
  {
    hide Token, TokenPart, Strip, Lawful, BracketPart, Printable, Dotted, ParseFrom, Prepend;
    var token, path := Token(part), before + ("[" + Token(part) + "]" + after);
    TokenRoundTrip(r, part);
    Enclosed(before, token, after);
    BracketAt(r, path, |before|, token, part);
    ParseBracket(r, path, |before|, part, |before| + 2 + |token|);
  }

  lemma {:induction false} ParsePrinted(r: Reader, before: string, parts: seq<Part>)
    requires Lawful(r) && forall i :: 0 <= i < |parts| ==> Printable(parts[i])
    ensures ParseFrom(r, before + PrintParts(parts), |before|) == Some(parts)
    decreases |parts|
  {
    hide Lawful, Printable, ParseFrom, PrintPart;
    if parts == [] {
      assert before + "" == before;
      ParseEnd(r, before);
    } else {
      var part, rest := parts[0], parts[1..];
      var text, after := PrintPart(part), PrintParts(rest);
      PartsBegin(rest);
      PartStep(r, before, part, after);
      assert before + (text + after) == (before + text) + after;
      ParsePrinted(r, before + text, rest);
      assert parts == [part] + rest;
    }
  }

  lemma ParseEnd(r: Reader, path: string)
    ensures ParseFrom(r, path, |path|) == Some([])
  {
  }

  lemma PartStep(r: Reader, before: string, part: Part, after: string)
    requires Lawful(r) && Printable(part) && (after != "" ==> Delimiter(after[0]))
    ensures ParseFrom(r, before + (PrintPart(part) + after), |before|)
         == Prepend([part], ParseFrom(r, before + (PrintPart(part) + after), |before| + |PrintPart(part)|))
  {
    hide ParseFrom, Lawful, Token, Dotted;
    if part.Key? && Dotted(part.key) {
      DottedStep(r, before, part.key, after);
    } else {
      BracketStep(r, before, part, after);
    }
  }

  /** Printing a path and parsing it returns the same parts. */
  lemma PathRoundTrip(r: Reader, parts: seq<Part>)
    requires Lawful(r) && forall i :: 0 <= i < |parts| ==> Printable(parts[i])
    ensures ParsePath(r, "$" + PrintParts(parts)) == Some(parts)
  {
    ParsePrinted(r, "$", parts);
  }

  lemma FirstDotted(r: Reader, path: string, i: nat)
    requires i < |path| && path[i] == '.' && ParseFrom(r, path, i).Some?
    ensures var parts := ParseFrom(r, path, i).value; var end := KeyEnd(path, i + 1);
      end > i + 1 && parts != [] && parts[0] == DottedPart(path[i + 1..end])
  {
    hide BracketPart;
  }

  /** A key after a dot is read as itself exactly when it has no delimiter and is not the wildcard. */
  lemma DottedKeyIff(r: Reader, key: string)
    ensures ParsePath(r, "$." + key) == Some([Key(key)]) <==> Dotted(key)
  {
    hide BracketPart;
    var path := "$." + key;
    assert path == "$" + ("." + key + "");
    if Dotted(key) {
      DottedStep(r, "$", key, "");
      ParseEnd(r, path);
      assert [Key(key)] + [] == [Key(key)];
    }
    if ParsePath(r, path) == Some([Key(key)]) {
      var end := KeyEnd(path, 2);
      FirstDotted(r, path, 1);
      assert path[2..] == key;
      assert Key(key) == DottedPart(path[2..end]);
      assert |path[2..end]| == |key|;
      assert end == |path| && path[2..end] == key;
      assert key != "*" && key != "";
      forall i | 0 <= i < |key| ensures !Delimiter(key[i]) { assert key[i] == path[i + 2]; }
    }
  }

  // ---- extraction ----------------------------------------------------------

  /** `_json_child`: an element, counted from the end when negative, or the value of a key. */
  function Child(value: Json, part: Part): Option<Json> {
    match part
    case Subscript(i) =>
      if value.JList? && -|value.items| <= i < |value.items| then
        Some(value.items[if i < 0 then |value.items| + i else i])
      else
        None
    case Key(key) =>
      if value.JObject? && Has(value.fields, key) then Some(value.fields[IndexOf(value.fields, key)].1) else None
    case Wildcard => None
  }

  function FieldValues(fields: seq<(string, Json)>): seq<Json> {
    seq(|fields|, i requires 0 <= i < |fields| => fields[i].1)
  }

  /** All values that one part leads to. */
  function Children(value: Json, part: Part): seq<Json> {
    if part.Wildcard? then
      match value
      case JObject(fields) => FieldValues(fields)
      case JList(items) => items
      case _ => []
    else
      match Child(value, part)
      case None => []
      case Some(child) => [child]
  }

  /** The recursive meaning of a path: the selected values in document order. */
  function Select(value: Json, parts: seq<Part>): seq<Json>
    decreases |parts|, 0
  {
    if parts == [] then [value] else SelectAll(Children(value, parts[0]), parts[1..])
  }

  function SelectAll(values: seq<Json>, parts: seq<Part>): seq<Json>
    decreases |parts|, 1, |values|
  {
    if values == [] then
      []
    else
      SelectAll(values[..|values| - 1], parts) + Select(values[|values| - 1], parts)
  }

  function Extract(document: Json, parts: seq<Part>): Option<Json> {
    var selected := Select(document, parts);
    if selected == [] then None
    else if Wildcard in parts then Some(JList(selected))
    else Some(selected[0])
  }

  function ChildrenOfAll(values: seq<Json>, part: Part): seq<Json> {
    if values == [] then [] else ChildrenOfAll(values[..|values| - 1], part) + Children(values[|values| - 1], part)
  }

  lemma {:induction false} SelectAllConcat(a: seq<Json>, b: seq<Json>, parts: seq<Part>)
    ensures SelectAll(a + b, parts) == SelectAll(a, parts) + SelectAll(b, parts)
    decreases |b|
  {
    if b == [] {
      assert a + b == a;
    } else {
      assert (a + b)[..|a + b| - 1] == a + b[..|b| - 1];
      SelectAllConcat(a, b[..|b| - 1], parts);
    }
  }

  /** Going one part deeper everywhere first, or value by value, is the same. */
  lemma {:induction false} FrontierStep(values: seq<Json>, parts: seq<Part>)
    requires parts != []
    ensures SelectAll(values, parts) == SelectAll(ChildrenOfAll(values, parts[0]), parts[1..])
  {
    if values != [] {
      var last := |values| - 1;
      FrontierStep(values[..last], parts);
      SelectAllConcat(ChildrenOfAll(values[..last], parts[0]), Children(values[last], parts[0]), parts[1..]);
    }
  }

  lemma {:induction false} SelectAllEnd(values: seq<Json>)
    ensures SelectAll(values, []) == values
  {
    if values != [] {
      SelectAllEnd(values[..|values| - 1]);
    }
  }

  lemma SelectNothing(parts: seq<Part>)
    ensures SelectAll([], parts) == []
  {
  }

  lemma SelectOne(value: Json, parts: seq<Part>)
    ensures SelectAll([value], parts) == Select(value, parts)
  {
    assert [value][..0] == [];
  }

  /** `_extract_json` on parsed parts; `None` also stands for a selected null. */
  method ExtractJson(document: Json, parts: seq<Part>) returns (r: Option<Json>)
    ensures r == Extract(document, parts)
  {
    hide Children, Select, SelectAll, ChildrenOfAll;
    var values := [document];
    var usedWildcard := false;
    SelectOne(document, parts);
    var i := 0;
    while i < |parts|
      invariant 0 <= i <= |parts| && values != []
      invariant usedWildcard <==> Wildcard in parts[..i]
      invariant SelectAll(values, parts[i..]) == Select(document, parts)
    {
      var part := parts[i];
      FrontierStep(values, parts[i..]);
      assert parts[i..][0] == part && parts[i..][1..] == parts[i + 1..];
      assert parts[..i + 1] == parts[..i] + [part];
      var next := NextValues(values, part);
      usedWildcard := usedWildcard || part == Wildcard;
      values := next;
      i := i + 1;
      if values == [] {
        SelectNothing(parts[i..]);
        return None;
      }
    }
    assert parts[i..] == [] && parts[..i] == parts;
    SelectAllEnd(values);
    r := if usedWildcard then Some(JList(values)) else Some(values[0]);
  }

  /** One round of the frontier loop. */
  method NextValues(values: seq<Json>, part: Part) returns (next: seq<Json>)
    ensures next == ChildrenOfAll(values, part)
  {
    next := [];
    var i := 0;
    while i < |values|
      invariant 0 <= i <= |values|
      invariant next == ChildrenOfAll(values[..i], part)
    {
      assert values[..i + 1][..i] == values[..i];
      next := next + Children(values[i], part);
      i := i + 1;
    }
    assert values[..i] == values;
  }

  /** Without a wildcard at most one value is selected. */
  lemma {:induction false} AtMostOne(value: Json, parts: seq<Part>)
    requires Wildcard !in parts
    ensures |Select(value, parts)| <= 1
  {
    if parts != [] {
      var children := Children(value, parts[0]);
      if children != [] {
        AtMostOne(children[0], parts[1..]);
        assert children == [children[0]];
        SelectOne(children[0], parts[1..]);
      }
    }
  }

  /** Paths compose: following one path after another selects what their concatenation selects. */
  lemma {:induction false} PathsCompose(value: Json, p: seq<Part>, q: seq<Part>)
    ensures Select(value, p + q) == SelectAll(Select(value, p), q)
    decreases |p|, 0
  {
    if p == [] {
      assert p + q == q;
      SelectOne(value, q);
    } else {
      assert (p + q)[0] == p[0] && (p + q)[1..] == p[1..] + q;
      AllCompose(Children(value, p[0]), p[1..], q);
    }
  }

  lemma {:induction false} AllCompose(values: seq<Json>, p: seq<Part>, q: seq<Part>)
    ensures SelectAll(values, p + q) == SelectAll(SelectAll(values, p), q)
    decreases |p|, 1, |values|
  {
    if values != [] {
      var last := |values| - 1;
      AllCompose(values[..last], p, q);
      PathsCompose(values[last], p, q);
      SelectAllConcat(SelectAll(values[..last], p), Select(values[last], p), q);
    }
  }

  /** A negative subscript counts from the end, down to the first element. */
  lemma NegativeSubscript(items: seq<Json>, back: int)
    requires back >= 1
    ensures Select(JList(items), [Subscript(-back)])
         == if back <= |items| then Select(JList(items), [Subscript(|items| - back)]) else []
  {
    SelectLast(JList(items), Subscript(-back));
    if back <= |items| {
      SelectLast(JList(items), Subscript(|items| - back));
    }
  }

  lemma SelectLast(value: Json, part: Part)
    ensures Select(value, [part]) == Children(value, part)
  {
    assert [part][1..] == [];
    SelectAllEnd(Children(value, part));
  }
}
