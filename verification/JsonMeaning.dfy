/** What a JSON path selects, told by positions and keys of the document, and which texts are no paths. */
module JsonMeaning {
  import opened Wrappers
  import opened JsonPaths

  // ---- one part ------------------------------------------------------------

  ghost predicate FirstField(fields: seq<(string, Json)>, key: string, i: nat) {
    i < |fields| && fields[i].0 == key && forall j :: 0 <= j < i ==> fields[j].0 != key
  }

  ghost predicate HasField(fields: seq<(string, Json)>, key: string) {
    exists i :: 0 <= i < |fields| && fields[i].0 == key
  }

  /** A key selects the value of the field with that key, and nothing from any other value. */
  lemma KeySelects(value: Json, key: string)
    ensures value.JObject? ==>
      forall i: nat :: FirstField(value.fields, key, i) ==> Select(value, [Key(key)]) == [value.fields[i].1]
    ensures !value.JObject? || !HasField(value.fields, key) ==> Select(value, [Key(key)]) == []
  {
    SelectLast(value, Key(key));
  }

  /** A subscript selects the element at its position, counted from the end when negative, and only from lists. */
  lemma SubscriptSelects(value: Json, index: int)
    ensures value.JList? ==> var n := |value.items|;
      && (0 <= index < n ==> Select(value, [Subscript(index)]) == [value.items[index]])
      && (-n <= index < 0 ==> Select(value, [Subscript(index)]) == [value.items[n + index]])
      && (index >= n || index < -n ==> Select(value, [Subscript(index)]) == [])
    ensures !value.JList? ==> Select(value, [Subscript(index)]) == []
  {
    SelectLast(value, Subscript(index));
  }

  /** A wildcard selects the elements of a list or the values of an object, in their order, and nothing else. */
  lemma WildcardSelects(value: Json)
    ensures value.JList? ==> Select(value, [Wildcard]) == value.items
    ensures value.JObject? ==>
      && |Select(value, [Wildcard])| == |value.fields|
      && (forall i :: 0 <= i < |value.fields| ==> Select(value, [Wildcard])[i] == value.fields[i].1)
    ensures !value.JList? && !value.JObject? ==> Select(value, [Wildcard]) == []
  {
    SelectLast(value, Wildcard);
  }

  /** The empty path selects the document; a longer one what its rest selects from each value of its first part. */
  lemma {:induction false} PathSelects(value: Json, part: Part, rest: seq<Part>)
    ensures Select(value, []) == [value]
    ensures Select(value, [part] + rest) == SelectAll(Select(value, [part]), rest)
  {
    PathsCompose(value, [part], rest);
  }

  /** Several values yield what each of them yields, in turn. */
  lemma {:induction false} ManySelect(values: seq<Json>, value: Json, rest: seq<Part>)
    ensures SelectAll([], rest) == []
    ensures SelectAll([value] + values, rest) == Select(value, rest) + SelectAll(values, rest)
  {
    SelectNothing(rest);
    SelectAllConcat([value], values, rest);
    SelectOne(value, rest);
  }

  /**
    Extraction is missing when nothing is selected; with a wildcard it is the list of all that is
    selected, and otherwise the one value.
   */
  lemma ExtractedIs(document: Json, parts: seq<Part>)
    ensures Extract(document, parts).None? <==> Select(document, parts) == []
    ensures Select(document, parts) != [] && (exists i :: 0 <= i < |parts| && parts[i] == Wildcard) ==>
      Extract(document, parts) == Some(JList(Select(document, parts)))
    ensures Select(document, parts) != [] && (forall i :: 0 <= i < |parts| ==> parts[i] != Wildcard) ==>
      exists v :: Select(document, parts) == [v] && Extract(document, parts) == Some(v)
  {
    hide Select;
    if Select(document, parts) != [] && (forall i :: 0 <= i < |parts| ==> parts[i] != Wildcard) {
      AtMostOne(document, parts);
      var v := Select(document, parts)[0];
      assert Select(document, parts) == [v];
    }
  }

  // ---- texts that are no paths ---------------------------------------------

  ghost predicate ClosedAt(path: string, i: nat, end: nat) {
    i < end < |path| && path[end] == ']' && forall j :: i < j < end ==> path[j] != ']'
  }

  /** A path begins with the dollar sign, and `$` alone has no parts. */
  lemma PathBegins(r: Reader, path: string)
    ensures path == "" || path[0] != '$' ==> ParsePath(r, path) == None
    ensures ParsePath(r, "$") == Some([])
  {
  }

  /**
    What makes the rest of a path invalid at once: a character that begins no part, a dot without a key, a
    bracket without its end, or brackets around a text that is no wildcard, quoted key or integer.
   */
  lemma InvalidAt(r: Reader, path: string, i: nat)
    requires i < |path|
    ensures path[i] != '.' && path[i] != '[' ==> ParseFrom(r, path, i) == None
    ensures path[i] == '.' && (i + 1 == |path| || path[i + 1] == '.' || path[i + 1] == '[') ==>
      ParseFrom(r, path, i) == None
    ensures path[i] == '[' && (forall end: nat :: !ClosedAt(path, i, end)) ==> ParseFrom(r, path, i) == None
    ensures forall end: nat :: path[i] == '[' && ClosedAt(path, i, end) && Unreadable(r, path[i + 1..end]) ==>
      ParseFrom(r, path, i) == None
  {
    hide Strip;
    var close := FindClose(path, i + 1);
    if close.Some? {
      assert ClosedAt(path, i, close.value);
    }
    forall end: nat | ClosedAt(path, i, end) ensures close == Some(end) {
      FindCloseAt(path, i + 1, end);
    }
  }

  /** The text in brackets is neither a star, nor quoted and a string literal, nor unquoted and an integer. */
  predicate Unreadable(r: Reader, token: string) {
    var t := Strip(r, token);
    && t != "*"
    && (if t != "" && (t[0] == '\'' || t[0] == '"') then r.literal(t).None? else r.integer(t).None?)
  }

  /** Characters that a text in single quotes cannot have without an escape, and the end of the brackets. */
  predicate Awkward(c: char) {
    c == '\'' || c == '\\' || c == ']' || c == '\n' || c == '\r' || c == '\0'
  }

  /** In brackets and quotes any other key is read as itself, dots, opening brackets and spaces included. */
  lemma BracketedKey(r: Reader, key: string)
    requires Lawful(r) && forall i :: 0 <= i < |key| ==> !Awkward(key[i])
    ensures ParsePath(r, "$['" + key + "']") == Some([Key(key)])
  {
    hide ParseFrom, BracketPart, TokenPart, Strip, Lawful;
    assert Quotable(key);
    var token, path := Quoted(key), "$['" + key + "']";
    assert token[0] == '\'' && token[|token| - 1] == '\'';
    assert !r.space('\'') && r.literal(token) == Some(key) by { QuotedReads(r, key); }
    StripKeeps(r, token);
    assert TokenPart(r, token) == Some(Key(key)) by { QuotedToken(r, token, key); }
    assert path[2..2 + |token|] == token && path[2 + |token|] == ']' && path[1] == '[';
    BracketAt(r, path, 1, token, Key(key));
    ParseBracket(r, path, 1, Key(key), |path|);
    ParseEnd(r, path);
    assert [Key(key)] + [] == [Key(key)];
  }

  lemma QuotedReads(r: Reader, key: string)
    requires Lawful(r) && Quotable(key)
    ensures !r.space('\'') && r.literal(Quoted(key)) == Some(key)
  {
  }

  lemma QuotedToken(r: Reader, token: string, key: string)
    requires token != "" && token[0] == '\'' && r.literal(token) == Some(key)
    ensures TokenPart(r, token) == Some(Key(key))
  {
  }

  predicate Blank(r: Reader, s: string) {
    forall i :: 0 <= i < |s| ==> r.space(s[i])
  }

  /** White space around the text in brackets does not matter. */
  lemma {:induction false} Stripped(r: Reader, before: string, token: string, after: string)
    requires Blank(r, before) && Blank(r, after)
    requires token != "" && !r.space(token[0]) && !r.space(token[|token| - 1])
    ensures Strip(r, before + token + after) == token
    decreases |before| + |after|
  {
    var s := before + token + after;
    if before != "" {
      assert s[0] == before[0] && s[1..] == before[1..] + token + after;
      Stripped(r, before[1..], token, after);
    } else if after != "" {
      assert s[0] == token[0] && s[|s| - 1] == after[|after| - 1];
      assert s[..|s| - 1] == before + token + after[..|after| - 1];
      Stripped(r, before, token, after[..|after| - 1]);
    } else {
      assert s == token;
      StripKeeps(r, token);
    }
  }
}
