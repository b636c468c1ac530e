/** Local schema references and the JSON Pointer tokens in them (section 4 of RFC 6901). */
module JsonPointer {
  import opened JsonValues
  import opened Prelude

  /** strings.Split by one character: always at least one segment. */
  function Split(s: string, separator: char): (r: seq<string>)
    ensures r != []
  {
    if s == [] then [""]
    else
      var rest := Split(s[1..], separator);
      if s[0] == separator then [""] + rest else [[s[0]] + rest[0]] + rest[1..]
  }

  /** strings.ReplaceAll of a two-character pattern: leftmost occurrences, none overlapping. */
  function ReplaceAll(s: string, first: char, second: char, replacement: char): string {
    if s == [] then ""
    else if |s| > 1 && s[0] == first && s[1] == second
        then [replacement] + ReplaceAll(s[2..], first, second, replacement)
    else [s[0]] + ReplaceAll(s[1..], first, second, replacement)
  }

  /** The decoder: "~1" everywhere first, then "~0" everywhere. */
  function DecodeToken(token: string): string {
    ReplaceAll(ReplaceAll(token, '~', '1', '/'), '~', '0', '~')
  }

  /** One left-to-right pass that reads each escape once. */
  function Unescape(token: string): string {
    if token == [] then ""
    else if |token| > 1 && token[0] == '~' && token[1] == '1' then "/" + Unescape(token[2..])
    else if |token| > 1 && token[0] == '~' && token[1] == '0' then "~" + Unescape(token[2..])
    else [token[0]] + Unescape(token[1..])
  }

  function Escape(key: string): string {
    if key == [] then ""
    else (if key[0] == '~' then "~0" else if key[0] == '/' then "~1" else [key[0]]) + Escape(key[1..])
  }

  /** Every '~' opens one of the two escapes. */
  predicate ValidToken(token: string) {
    token == []
    || (token[0] != '~' && ValidToken(token[1..]))
    || (token[0] == '~' && |token| > 1 && (token[1] == '0' || token[1] == '1') && ValidToken(token[2..]))
  }

  lemma {:induction false} FirstPassKeepsHead(s: string)
    requires s != [] && !(|s| > 1 && s[0] == '~' && s[1] == '1')
    ensures ReplaceAll(s, '~', '1', '/') == [s[0]] + ReplaceAll(s[1..], '~', '1', '/')
    ensures s[0] == '~' && |s| > 1 && s[1] == '0' ==>
              ReplaceAll(s[1..], '~', '1', '/') == ['0'] + ReplaceAll(s[2..], '~', '1', '/')
    ensures var rest := ReplaceAll(s[1..], '~', '1', '/');
            s[0] == '~' && rest != [] && rest[0] == '0' ==> |s| > 1 && s[1] == '0'
  {
    if |s| > 1 {
      assert s[1..][1..] == s[2..];
    }
  }

  /** The order of the two passes makes them one pass: no replacement of the first creates work for the second. */
  lemma {:induction false} TwoPassesAreOneUnescape(token: string)
    ensures DecodeToken(token) == Unescape(token)
  {
    if token != [] {
      if |token| > 1 && token[0] == '~' && token[1] == '1' {
        var rest := ReplaceAll(token[2..], '~', '1', '/');
        assert (['/'] + rest)[1..] == rest;
        TwoPassesAreOneUnescape(token[2..]);
      } else {
        FirstPassKeepsHead(token);
        var rest := ReplaceAll(token[1..], '~', '1', '/');
        assert ([token[0]] + rest)[1..] == rest;
        if |token| > 1 && token[0] == '~' && token[1] == '0' {
          var tail := ReplaceAll(token[2..], '~', '1', '/');
          assert ([token[0]] + (['0'] + tail))[2..] == tail;
          TwoPassesAreOneUnescape(token[2..]);
        } else {
          TwoPassesAreOneUnescape(token[1..]);
        }
      }
    }
  }

  /** Escaping gives a valid token without a separator, and decoding undoes it. */
  lemma {:induction false} DecodingUndoesEscaping(key: string)
    ensures DecodeToken(Escape(key)) == key
    ensures ValidToken(Escape(key)) && '/' !in Escape(key)
    ensures key != "" ==> Escape(key) != ""
  {
    TwoPassesAreOneUnescape(Escape(key));
    if key != [] {
      DecodingUndoesEscaping(key[1..]);
      TwoPassesAreOneUnescape(Escape(key[1..]));
      var head := if key[0] == '~' then "~0" else if key[0] == '/' then "~1" else [key[0]];
      assert Escape(key)[|head|..] == Escape(key[1..]);
      assert key == [key[0]] + key[1..];
    }
  }

  /** Conversely every valid token is the escape of what it decodes to: decoding loses nothing. */
  lemma {:induction false} EscapingUndoesDecoding(token: string)
    requires ValidToken(token) && '/' !in token
    ensures Escape(DecodeToken(token)) == token
    ensures token != "" ==> DecodeToken(token) != ""
  {
    TwoPassesAreOneUnescape(token);
    if token != [] {
      var skip := if token[0] == '~' then 2 else 1;
      assert forall c :: c in token[skip..] ==> c in token;
      EscapingUndoesDecoding(token[skip..]);
      TwoPassesAreOneUnescape(token[skip..]);
      assert Unescape(token)[1..] == Unescape(token[skip..]);
      assert token == token[..skip] + token[skip..];
    }
  }

  function TrimPrefix(s: string, prefix: string): string {
    if prefix <= s then s[|prefix|..] else s
  }

  predicate ValidLocalReference(ref: string) {
    var segments := Split(TrimPrefix(ref, "#/"), '/');
    && "#/" <= ref
    && |segments| == 2
    && (segments[0] == "$defs" || segments[0] == "definitions")
    && segments[1] != ""
    && ValidToken(segments[1])
  }

  /** The index loop over the second segment. */
  method ValidLocalSchemaReference(ref: string) returns (valid: bool)
    ensures valid <==> ValidLocalReference(ref)
  {
    var segments := Split(TrimPrefix(ref, "#/"), '/');
    if !("#/" <= ref) || |segments| != 2
       || (segments[0] != "$defs" && segments[0] != "definitions") || segments[1] == "" {
      return false;
    }
    var token := segments[1];
    var index := 0;
    while index < |token|
      invariant 0 <= index <= |token|
      invariant ValidToken(token) <==> ValidToken(token[index..])
    {
      assert token[index..][1..] == token[index + 1..];
      if token[index] != '~' {
        index := index + 1;
        continue;
      }
      if index + 1 >= |token| || (token[index + 1] != '0' && token[index + 1] != '1') {
        return false;
      }
      assert token[index..][2..] == token[index + 2..];
      index := index + 2;
    }
    return true;
  }

  lemma {:induction false} SplitWithoutSeparator(s: string)
    requires '/' !in s
    ensures Split(s, '/') == [s]
  {
    if s != [] {
      SplitWithoutSeparator(s[1..]);
      assert [s[0]] + s[1..] == s;
    }
  }

  lemma {:induction false} SplitAtSeparator(a: string, b: string)
    requires '/' !in a && '/' !in b
    ensures Split(a + "/" + b, '/') == [a, b]
  {
    if a == [] {
      assert a + "/" + b == ['/'] + b;
      SplitWithoutSeparator(b);
    } else {
      assert (a + "/" + b)[1..] == a[1..] + "/" + b;
      SplitAtSeparator(a[1..], b);
      assert [a[0]] + a[1..] == a;
    }
  }

  lemma {:induction false} SplitInTwo(s: string)
    requires |Split(s, '/')| <= 2
    ensures var r := Split(s, '/'); s == (if |r| == 1 then r[0] else r[0] + "/" + r[1])
    ensures forall x :: x in Split(s, '/') ==> '/' !in x
  {
    if s != [] {
      var r := Split(s[1..], '/');
      assert |r| <= |Split(s, '/')|;
      SplitInTwo(s[1..]);
      assert s == [s[0]] + s[1..];
      if s[0] == '/' {
        assert Split(s, '/') == [""] + r && |r| == 1;
        assert s == "" + "/" + r[0];
      } else {
        assert Split(s, '/') == [[s[0]] + r[0]] + r[1..];
        assert |r| == 2 ==> [s[0]] + (r[0] + "/" + r[1]) == ([s[0]] + r[0]) + "/" + r[1];
      }
    }
  }

  predicate IsDefinitionPointer(ref: string, name: string, key: string) {
    (name == "$defs" || name == "definitions") && key != "" && ref == "#/" + name + "/" + Escape(key)
  }

  /** The accepted references are exactly the pointers to a named root definition, its name escaped. */
  lemma ReferencesAreDefinitionPointers(ref: string)
    ensures ValidLocalReference(ref) <==> exists name, key :: IsDefinitionPointer(ref, name, key)
  {
    if ValidLocalReference(ref) {
      var segments := Split(TrimPrefix(ref, "#/"), '/');
      SplitInTwo(TrimPrefix(ref, "#/"));
      EscapingUndoesDecoding(segments[1]);
      assert ref == "#/" + TrimPrefix(ref, "#/");
      assert IsDefinitionPointer(ref, segments[0], DecodeToken(segments[1]));
    }
    forall name, key | IsDefinitionPointer(ref, name, key) ensures ValidLocalReference(ref) {
      EscapedReferenceSplits(name, key);
    }
  }

  lemma EscapedReferenceSplits(name: string, key: string)
    requires name == "$defs" || name == "definitions"
    ensures Split(TrimPrefix("#/" + name + "/" + Escape(key), "#/"), '/') == [name, Escape(key)]
    ensures ValidToken(Escape(key)) && (key != "" ==> Escape(key) != "")
  {
    DecodingUndoesEscaping(key);
    assert ("#/" + name + "/" + Escape(key))[..2] == "#/";
    assert ("#/" + name + "/" + Escape(key))[2..] == name + "/" + Escape(key);
    SplitAtSeparator(name, Escape(key));
  }

  /** Walking the decoded segments from an object value. */
  function Walk(current: Json, segments: seq<string>): Option<Json> {
    if segments == [] then Some(current)
    else
      var segment := DecodeToken(segments[0]);
      if current.JObject? && segment in current.fields then Walk(current.fields[segment], segments[1..]) else None
  }

  function Resolve(root: Node, ref: string): Option<Node> {
    match Walk(JObject(root), Split(TrimPrefix(ref, "#/"), '/'))
    case Some(JObject(node)) => Some(node)
    case _ => None
  }

  method ResolveLocalReference(root: Node, ref: string) returns (resolved: Option<Node>)
    ensures resolved == Resolve(root, ref)
  {
    var segments := Split(TrimPrefix(ref, "#/"), '/');
    var current := JObject(root);
    for i := 0 to |segments|
      invariant Walk(JObject(root), segments) == Walk(current, segments[i..])
    {
      var segment := DecodeToken(segments[i]);
      assert segments[i..][0] == segments[i] && segments[i..][1..] == segments[i + 1..];
      if !current.JObject? || segment !in current.fields {
        return None;
      }
      current := current.fields[segment];
    }
    assert segments[|segments|..] == [];
    return if current.JObject? then Some(current.fields) else None;
  }

  /** The escaped name of a definition resolves to that definition, whatever characters the name has. */
  lemma EscapedNameResolves(root: Node, name: string, key: string)
    requires name == "$defs" || name == "definitions"
    requires name in root && root[name].JObject? && key in root[name].fields && root[name].fields[key].JObject?
    ensures Resolve(root, "#/" + name + "/" + Escape(key)) == Some(root[name].fields[key].fields)
  {
    EscapedReferenceSplits(name, key);
    assert DecodeToken(name) == name by {
      TwoPassesAreOneUnescape(name);
      PlainNameDecodes(name);
    }
    assert DecodeToken(Escape(key)) == key by { DecodingUndoesEscaping(key); }
    WalkTwo(JObject(root), name, Escape(key));
  }

  lemma WalkTwo(current: Json, first: string, second: string)
    ensures Walk(current, [first, second])
         == if current.JObject? && DecodeToken(first) in current.fields
            then Walk(current.fields[DecodeToken(first)], [second])
            else None
  {
    assert [first, second][1..] == [second];
  }

  /** Conversely an accepted reference that resolves leads to a definition under the root. */
  lemma AcceptedReferenceLeadsToDefinition(root: Node, ref: string) returns (name: string, key: string)
    requires ValidLocalReference(ref) && Resolve(root, ref).Some?
    ensures name == "$defs" || name == "definitions"
    ensures name in root && root[name].JObject? && key in root[name].fields
    ensures root[name].fields[key] == JObject(Resolve(root, ref).value)
  {
    var segments := Split(TrimPrefix(ref, "#/"), '/');
    name, key := segments[0], DecodeToken(segments[1]);
    TwoPassesAreOneUnescape(name);
    PlainNameDecodes(name);
    assert segments[1..] == [segments[1]] && [segments[1]][1..] == [];
    assert Walk(root[name], [segments[1]]).Some?;
    assert Walk(root[name].fields[key], []) == Some(root[name].fields[key]);
  }

  lemma {:induction false} PlainNameDecodes(name: string)
    requires '~' !in name
    ensures Unescape(name) == name
  {
    if name != [] {
      PlainNameDecodes(name[1..]);
      assert name == [name[0]] + name[1..];
    }
  }
}
