/** Printing secrets as a .env file, and reading such a file back the way a POSIX
    shell reads assignments: section 2.2.1 (the backslash) and section 2.2.2 (single
    quotes) of the Shell Command Language, IEEE Std 1003.1. */
module Dotenv {
  import opened Outcomes
  import opened Ordering
  import opened Envelope
  import opened Schema

  // ---- Printing --------------------------------------------------------------

  /** Replace every single quote by the four characters that close the quotes, escape a
      quote and open them again. */
  function Escape(value: string): string {
    if value == [] then []
    else (if value[0] == '\'' then "'\\''" else [value[0]]) + Escape(value[1..])
  }

  function Line(key: string, value: string): string {
    key + "='" + Escape(value) + "'\n"
  }

  function Render(keys: seq<string>, values: map<string, string>): string
    requires forall k | k in keys :: k in values
  {
    if keys == [] then [] else Line(keys[0], values[keys[0]]) + Render(keys[1..], values)
  }

  ghost predicate IsSorting(keys: seq<string>, values: map<string, string>) {
    Ascending(keys) && forall k :: k in keys <==> k in values
  }

  function Insert(k: string, keys: seq<string>): seq<string> {
    if keys == [] || Less(k, keys[0]) then [k] + keys else [keys[0]] + Insert(k, keys[1..])
  }

  lemma {:induction false} InsertAscends(k: string, keys: seq<string>)
    requires Ascending(keys) && k !in keys
    ensures Ascending(Insert(k, keys)) && forall x :: x in Insert(k, keys) <==> x == k || x in keys
  {
    if keys != [] {
      assert keys == [keys[0]] + keys[1..];
      if Less(k, keys[0]) {
        forall i | 0 < i < |keys| ensures Less(k, keys[i]) {
          LessIsTransitive(k, keys[0], keys[i]);
        }
      } else {
        LessIsTotal(k, keys[0]);
        InsertAscends(k, keys[1..]);
        var rest := Insert(k, keys[1..]);
        forall i | 0 <= i < |rest| ensures Less(keys[0], rest[i]) {
          assert rest[i] in rest;
        }
      }
    }
  }

  /** sort.Strings, for keys that are all different. */
  method SortStrings(keys: seq<string>) returns (sorted: seq<string>)
    requires forall i, j | 0 <= i < j < |keys| :: keys[i] != keys[j]
    ensures Ascending(sorted) && forall k :: k in sorted <==> k in keys
  {
    sorted := [];
    for i := 0 to |keys|
      invariant Ascending(sorted) && forall k :: k in sorted <==> k in keys[..i]
    {
      InsertAscends(keys[i], sorted);
      sorted := Insert(keys[i], sorted);
    }
    assert keys[..|keys|] == keys;
  }

  /** The keys, in whatever order iterating over the map gives. */
  method CollectKeys(values: map<string, string>) returns (keys: seq<string>)
    ensures forall k :: k in keys <==> k in values
    ensures forall i, j | 0 <= i < j < |keys| :: keys[i] != keys[j]
  {
    keys := [];
    var left := values.Keys;
    while left != {}
      invariant left <= values.Keys
      invariant forall k :: k in keys <==> k in values && k !in left
      invariant forall i, j | 0 <= i < j < |keys| :: keys[i] != keys[j]
    {
      var key :| key in left;
      keys, left := keys + [key], left - {key};
    }
  }

  method WriteLines(keys: seq<string>, values: map<string, string>) returns (text: string)
    requires forall k | k in keys :: k in values
    ensures text == Render(keys, values)
  {
    hide Line;
    text := "";
    for i := 0 to |keys|
      invariant text + Render(keys[i..], values) == Render(keys, values)
    {
      assert keys[i..][0] == keys[i] && keys[i..][1..] == keys[i + 1..];
      var line := Line(keys[i], values[keys[i]]);
      assert text + (line + Render(keys[i + 1..], values)) == (text + line) + Render(keys[i + 1..], values);
      text := text + line;
    }
    assert keys[|keys|..] == [] && text + [] == text;
  }

  method Print(values: map<string, string>) returns (text: string)
    ensures exists keys :: IsSorting(keys, values) && text == Render(keys, values)
    ensures (forall k | k in values :: ValidKey(k)) ==>
              ReadFile(text) == if forall k | k in values :: NulFree(values[k]) then Some(values) else None
  {
    hide ReadFile, Ascending, ValidKey, NulFree;
    var keys := CollectKeys(values);
    keys := SortStrings(keys);
    assert IsSorting(keys, values);
    text := WriteLines(keys, values);
    if forall k | k in values :: ValidKey(k) {
      RoundTrip(keys, values);
    }
  }

  /** The text does not depend on the order in which the map is iterated. */
  lemma OneTextPerMap(values: map<string, string>, keys: seq<string>, keys': seq<string>)
    requires IsSorting(keys, values) && IsSorting(keys', values)
    ensures Render(keys, values) == Render(keys', values)
  {
    AscendingIsUnique(keys, keys');
  }

  // ---- Reading ----------------------------------------------------------------

  predicate NameChar(c: char) {
    'A' <= c <= 'Z' || 'a' <= c <= 'z' || '0' <= c <= '9' || c == '_'
  }

  /** Characters that stand for themselves outside quotes. Any other would start an
      expansion, a comment, an operator, another kind of quoting or another word. */
  predicate Literal(c: char) {
    NameChar(c) || c in "-./:,+@%="
  }

  /** A name and the text after its `=`. */
  function ReadName(text: string): Option<(string, string)> {
    if text == [] then None
    else if text[0] == '=' then Some(("", text[1..]))
    else if !NameChar(text[0]) then None
    else
      match ReadName(text[1..])
      case Some((name, rest)) => Some(([text[0]] + name, rest))
      case None => None
  }

  /** Outside quotes: the value of a word and the text after the newline that ends it. */
  function ReadWord(text: string): (r: Option<(string, string)>)
    ensures r.Some? ==> |r.value.1| <= |text|
    decreases |text|
  {
    if text == [] then Some(("", ""))
    else if text[0] == '\n' then Some(("", text[1..]))
    else if text[0] == '\'' then ReadQuoted(text[1..])
    else if text[0] == '\\' then
      if |text| == 1 || text[1] == NUL then None
      else if text[1] == '\n' then ReadWord(text[2..])
      else Prepend(text[1], ReadWord(text[2..]))
    else if Literal(text[0]) then Prepend(text[0], ReadWord(text[1..]))
    else None
  }

  /** Inside single quotes every character but the closing quote stands for itself; no
      value can hold a NUL. */
  function ReadQuoted(text: string): (r: Option<(string, string)>)
    ensures r.Some? ==> |r.value.1| <= |text|
    decreases |text|
  {
    if text == [] || text[0] == NUL then None
    else if text[0] == '\'' then ReadWord(text[1..])
    else Prepend(text[0], ReadQuoted(text[1..]))
  }

  function Prepend(c: char, r: Option<(string, string)>): Option<(string, string)> {
    match r
    case Some((value, rest)) => Some(([c] + value, rest))
    case None => None
  }

  predicate IsName(name: string) {
    name != [] && !('0' <= name[0] <= '9')
  }

  /** A file of assignments; a later one overrides an earlier one. */
  function ReadFile(text: string): Option<map<string, string>>
    decreases |text|
  {
    if text == [] then Some(map[])
    else
      match ReadName(text)
      case None => None
      case Some((name, word)) =>
        if !IsName(name) || |word| >= |text| then None
        else
          match ReadWord(word)
          case None => None
          case Some((value, rest)) =>
            match ReadFile(rest)
            case None => None
            case Some(others) => Some(map[name := value] + others)
  }

  // ---- Round trip ---------------------------------------------------------------

  lemma ReadEnd(rest: string)
    ensures ReadQuoted("'" + ("\n" + rest)) == Some(("", rest))
  {
    assert ("'" + ("\n" + rest))[1..] == "\n" + rest;
    assert ("\n" + rest)[1..] == rest;
  }

  /** The four characters that stand for a quote close the quotes, escape one and open
      them again. */
  lemma ReadQuote(tail: string)
    ensures ReadQuoted("'\\''" + tail) == Prepend('\'', ReadQuoted(tail))
  {
    var text := "'\\''" + tail;
    assert text[1..][2..] == "'" + tail;
    assert ("'" + tail)[1..] == tail;
    assert ReadWord("'" + tail) == ReadQuoted(tail);
    assert ReadWord(text[1..]) == Prepend('\'', ReadWord("'" + tail));
  }

  /** An escaped value is read back between its quotes if and only if it has no NUL. */
  lemma {:induction false} ReadEscaped(value: string, rest: string)
    ensures ReadQuoted(Escape(value) + "'\n" + rest) == if NulFree(value) then Some((value, rest)) else None
  {
    var text := Escape(value) + "'\n" + rest;
    if value == [] {
      assert text == "'" + ("\n" + rest);
      ReadEnd(rest);
    } else {
      var tail := Escape(value[1..]) + "'\n" + rest;
      ReadEscaped(value[1..], rest);
      assert value == [value[0]] + value[1..];
      if value[0] == '\'' {
        assert text == "'\\''" + tail;
        ReadQuote(tail);
      } else {
        assert text == [value[0]] + tail;
        assert text[1..] == tail;
      }
    }
  }

  lemma {:induction false} ReadKey(key: string, rest: string)
    requires forall i | 0 <= i < |key| :: KeyChar(key[i])
    ensures ReadName(key + "=" + rest) == Some((key, rest))
  {
    var text := key + "=" + rest;
    if key == [] {
      assert text[1..] == rest;
    } else {
      ReadKey(key[1..], rest);
      assert text[1..] == key[1..] + "=" + rest && text[0] == key[0];
      assert key == [key[0]] + key[1..];
    }
  }

  /** A printed line is read as its key and value, and the rest is read after it. */
  lemma ReadLine(key: string, value: string, rest: string)
    requires ValidKey(key)
    ensures ReadFile(Line(key, value) + rest) ==
              if NulFree(value) && ReadFile(rest).Some? then Some(map[key := value] + ReadFile(rest).value) else None
  {
    var word := "'" + (Escape(value) + "'\n" + rest);
    var text := Line(key, value) + rest;
    assert text == key + "=" + word;
    ReadKey(key, word);
    ReadEscaped(value, rest);
    assert word[1..] == Escape(value) + "'\n" + rest;
    assert ReadWord(word) == if NulFree(value) then Some((value, rest)) else None;
    hide Escape, ReadWord, ReadQuoted, ReadName, NulFree;
  }

  function Restricted(keys: seq<string>, values: map<string, string>): map<string, string>
    requires forall k | k in keys :: k in values
  {
    map k | k in keys :: values[k]
  }

  lemma RestrictedHead(keys: seq<string>, values: map<string, string>)
    requires keys != [] && forall k | k in keys :: k in values
    ensures keys[0] in keys && forall k | k in keys[1..] :: k in keys
    ensures map[keys[0] := values[keys[0]]] + Restricted(keys[1..], values) == Restricted(keys, values)
  {
    assert keys == [keys[0]] + keys[1..];
  }

  predicate AllNulFree(keys: seq<string>, values: map<string, string>)
    requires forall k | k in keys :: k in values
  {
    forall k | k in keys :: NulFree(values[k])
  }

  lemma {:induction false} ReadRendered(keys: seq<string>, values: map<string, string>)
    requires forall k | k in keys :: k in values && ValidKey(k)
    ensures ReadFile(Render(keys, values)) ==
              if AllNulFree(keys, values) then Some(Restricted(keys, values)) else None
  {
    if keys != [] {
      RestrictedHead(keys, values);
      assert keys == [keys[0]] + keys[1..];
      hide ReadFile, ValidKey, Line, Restricted, NulFree;
      ReadRendered(keys[1..], values);
      ReadLine(keys[0], values[keys[0]], Render(keys[1..], values));
    } else {
      assert Restricted(keys, values) == map[];
    }
  }

  /** Reading what was printed gives back exactly the map, for keys of the pattern, if and
      only if no value has a NUL: quotes, newlines, `$`, `#` and backslashes are safe. */
  lemma RoundTrip(keys: seq<string>, values: map<string, string>)
    requires IsSorting(keys, values) && forall k | k in values :: ValidKey(k)
    ensures ReadFile(Render(keys, values)) ==
              if forall k | k in values :: NulFree(values[k]) then Some(values) else None
  {
    ReadRendered(keys, values);
    assert Restricted(keys, values) == values;
  }
}
