/** Local references: JSON Pointer fragments (RFC 6901) followed through nested mappings. */
module JsonPointer {
  import opened Common
  import opened Json

  /** Non-overlapping replacement, from the left, of the two characters ab by c. */
  function Replace(s: string, a: char, b: char, c: char): string
  {
    if |s| < 2 then s
    else if s[0] == a && s[1] == b then [c] + Replace(s[2..], a, b, c)
    else [s[0]] + Replace(s[1..], a, b, c)
  }

  /** The two replacements, in this order. */
  function Unescape(token: string): string
  {
    Replace(Replace(token, '~', '1', '/'), '~', '0', '~')
  }

  /** Section 3 of RFC 6901. */
  function Escape(key: string): string
  {
    if key == "" then "" else EscapeChar(key[0]) + Escape(key[1..])
  }

  function EscapeChar(c: char): string
  {
    if c == '~' then "~0" else if c == '/' then "~1" else [c]
  }

  /** `text.split("/")`: at least one token. */
  function Split(text: string): (tokens: seq<string>)
    ensures |tokens| >= 1
  {
    if text == "" then [""]
    else if text[0] == '/' then [""] + Split(text[1..])
    else
      var rest := Split(text[1..]);
      [[text[0]] + rest[0]] + rest[1..]
  }

  function Join(tokens: seq<string>): string
  {
    if tokens == [] then ""
    else if |tokens| == 1 then tokens[0]
    else tokens[0] + "/" + Join(tokens[1..])
  }

  /** The node a list of keys leads to. */
  function Follow(node: Value, keys: seq<string>): Option<Value>
  {
    if keys == [] then Some(node)
    else match Get(node, keys[0]) case None => None case Some(child) => Follow(child, keys[1..])
  }

  function Keys(tokens: seq<string>): (keys: seq<string>)
    ensures |keys| == |tokens| && forall i :: 0 <= i < |keys| ==> keys[i] == Unescape(tokens[i])
  {
    if tokens == [] then [] else [Unescape(tokens[0])] + Keys(tokens[1..])
  }

  predicate IsLocal(ref: string)
  {
    |ref| >= 2 && ref[0] == '#' && ref[1] == '/'
  }

  function Resolve(spec: Value, ref: string): Option<Value>
  {
    if IsLocal(ref) then Follow(spec, Keys(Split(ref[2..]))) else None
  }

  predicate Resolves(spec: Value, ref: string)
  {
    Resolve(spec, ref).Some?
  }

  /** `_resolve_local_ref`: the error cases give None. */
  method ResolveLocalRef(spec: Value, ref: string) returns (r: Option<Value>)
    ensures r == Resolve(spec, ref)
  {
    if !IsLocal(ref) {
      return None;
    }
    var node := spec;
    var tokens := Split(ref[2..]);
    var keys := Keys(tokens);
    for i := 0 to |tokens|
      invariant Follow(node, keys[i..]) == Resolve(spec, ref)
    {
      var token := Replace(Replace(tokens[i], '~', '1', '/'), '~', '0', '~');
      var child := Get(node, token);
      if child.None? {
        return None;
      }
      node := child.value;
      assert keys[i..][1..] == keys[i + 1..];
    }
    assert keys[|tokens|..] == [];
    return Some(node);
  }

  // ----- the round trip -----

  function RefTo(keys: seq<string>): string
  {
    "#/" + Join(EscapeAll(keys))
  }

  function EscapeAll(keys: seq<string>): (tokens: seq<string>)
    ensures |tokens| == |keys| && forall i :: 0 <= i < |keys| ==> tokens[i] == Escape(keys[i])
  {
    if keys == [] then [] else [Escape(keys[0])] + EscapeAll(keys[1..])
  }

  /** After the first replacement: slashes are back, tildes still escaped. */
  function HalfEscaped(key: string): string
  {
    if key == "" then "" else (if key[0] == '~' then "~0" else [key[0]]) + HalfEscaped(key[1..])
  }

  lemma {:induction false} FirstReplace(key: string)
    ensures Replace(Escape(key), '~', '1', '/') == HalfEscaped(key)
    ensures Escape(key) == "" <==> key == ""
  {
    if key != "" {
      FirstReplace(key[1..]);
      UnescapeSlash(key[0], Escape(key[1..]));
    }
  }

  lemma UnescapeSlash(c: char, rest: string)
    ensures Replace(EscapeChar(c) + rest, '~', '1', '/') == (if c == '~' then "~0" else [c]) + Replace(rest, '~', '1', '/')
  {
    if c == '/' {
      ReplaceHits('1', '/', rest);
    } else if c == '~' {
      ReplaceMisses('0', '1', '/', rest);
    } else {
      ReplaceSkips(c, rest);
    }
  }

  lemma UnescapeTilde(c: char, rest: string)
    ensures Replace(EscapeChar(c) + rest, '~', '0', '~') == (if c == '/' then "~1" else [c]) + Replace(rest, '~', '0', '~')
  {
    if c == '~' {
      ReplaceHits('0', '~', rest);
    } else if c == '/' {
      ReplaceMisses('1', '0', '~', rest);
    } else {
      ReplaceSkips(c, rest);
    }
  }

  lemma ReplaceHits(b: char, d: char, rest: string)
    ensures Replace(['~', b] + rest, '~', b, d) == [d] + Replace(rest, '~', b, d)
  {
    assert (['~', b] + rest)[2..] == rest;
  }

  /** A character that is no tilde is passed over. */
  lemma ReplaceSkips(c: char, rest: string)
    requires c != '~'
    ensures forall b, d :: Replace([c] + rest, '~', b, d) == [c] + Replace(rest, '~', b, d)
  {
    assert ([c] + rest)[1..] == rest;
  }

  lemma ReplaceMisses(c: char, b: char, d: char, rest: string)
    requires c != b && c != '~'
    ensures Replace(['~', c] + rest, '~', b, d) == ['~', c] + Replace(rest, '~', b, d)
  {
    assert (['~', c] + rest)[1..] == [c] + rest;
    ReplaceSkips(c, rest);
    assert Replace([c] + rest, '~', b, d) == [c] + Replace(rest, '~', b, d);
  }

  lemma {:induction false} SecondReplace(key: string)
    ensures Replace(HalfEscaped(key), '~', '0', '~') == key
  {
    if key != "" {
      var h, rest := HalfEscaped(key), HalfEscaped(key[1..]);
      SecondReplace(key[1..]);
      if key[0] == '~' {
        assert h[2..] == rest;
      } else {
        assert h == [key[0]] + rest;
        ReplaceSkips(key[0], rest);
      }
      assert key == [key[0]] + key[1..];
    }
  }

  lemma UnescapeEscape(key: string)
    ensures Unescape(Escape(key)) == key
  {
    FirstReplace(key);
    SecondReplace(key);
  }

  lemma {:induction false} EscapeHasNoSlash(key: string)
    ensures '/' !in Escape(key)
  {
    if key != "" {
      EscapeHasNoSlash(key[1..]);
    }
  }

  lemma {:induction false} SplitToken(token: string, text: string)
    requires '/' !in token
    ensures Split(token) == [token]
    ensures Split(token + "/" + text) == [token] + Split(text)
  {
    if token == "" {
      assert "" + "/" + text == "/" + text && ("/" + text)[1..] == text;
    } else {
      SplitToken(token[1..], text);
      assert token[0] in token;
      assert (token + "/" + text)[1..] == token[1..] + "/" + text;
      assert [token[0]] + token[1..] == token;
    }
  }

  lemma {:induction false} SplitJoin(tokens: seq<string>)
    requires tokens != [] && forall i :: 0 <= i < |tokens| ==> '/' !in tokens[i]
    ensures Split(Join(tokens)) == tokens
  {
    if |tokens| == 1 {
      SplitToken(tokens[0], "");
    } else {
      SplitJoin(tokens[1..]);
      SplitToken(tokens[0], Join(tokens[1..]));
    }
  }

  /**
    For every document and every path of at least one key, whatever characters the keys contain:
    the reference built from the path resolves exactly as the path is followed.
   */
  lemma PointerRoundTrip(spec: Value, keys: seq<string>)
    requires keys != []
    ensures Resolve(spec, RefTo(keys)) == Follow(spec, keys)
  {
    var tokens := EscapeAll(keys);
    forall i | 0 <= i < |keys| ensures '/' !in tokens[i] && Unescape(tokens[i]) == keys[i] {
      EscapeHasNoSlash(keys[i]);
      UnescapeEscape(keys[i]);
    }
    SplitJoin(tokens);
    assert RefTo(keys)[2..] == Join(tokens);
    assert Keys(tokens) == keys;
  }

  // ----- any reference -----

  /** A chain of mappings from a node to a value, each leading to the next by its key. */
  ghost predicate Chain(nodes: seq<Value>, keys: seq<string>)
  {
    |nodes| == |keys| + 1
    && forall i :: 0 <= i < |keys| ==> nodes[i].Obj? && Find(nodes[i].fields, keys[i]) == Some(nodes[i + 1])
  }

  lemma {:induction false} ChainFollows(nodes: seq<Value>, keys: seq<string>)
    requires Chain(nodes, keys)
    ensures Follow(nodes[0], keys) == Some(nodes[|keys|])
  {
    if keys != [] {
      assert Chain(nodes[1..], keys[1..]);
      ChainFollows(nodes[1..], keys[1..]);
    }
  }

  lemma {:induction false} FollowsByChain(node: Value, keys: seq<string>) returns (nodes: seq<Value>)
    requires Follow(node, keys).Some?
    ensures Chain(nodes, keys) && nodes[0] == node
  {
    nodes := [node];
    if keys != [] {
      var rest := FollowsByChain(Get(node, keys[0]).value, keys[1..]);
      nodes := [node] + rest;
    }
  }

  /** Following keys ends in a value exactly when a chain of mappings leads there. */
  lemma FollowIsChain(node: Value, keys: seq<string>, found: Value)
    ensures Follow(node, keys) == Some(found) <==> exists nodes :: Chain(nodes, keys) && nodes[0] == node && nodes[|keys|] == found
  {
    if Follow(node, keys) == Some(found) {
      var nodes := FollowsByChain(node, keys);
      ChainFollows(nodes, keys);
    }
    if nodes :| Chain(nodes, keys) && nodes[0] == node && nodes[|keys|] == found {
      ChainFollows(nodes, keys);
    }
  }

  lemma JoinSlash(rest: seq<string>)
    requires rest != []
    ensures Join([""] + rest) == "/" + Join(rest)
  {
    assert ([""] + rest)[1..] == rest;
  }

  lemma JoinLonger(c: char, rest: seq<string>)
    requires rest != []
    ensures Join([[c] + rest[0]] + rest[1..]) == [c] + Join(rest)
  {
    assert ([[c] + rest[0]] + rest[1..])[1..] == rest[1..];
  }

  predicate NoSlash(tokens: seq<string>)
  {
    forall i :: 0 <= i < |tokens| ==> '/' !in tokens[i]
  }

  lemma {:induction false} JoinSplit(text: string)
    ensures Join(Split(text)) == text && NoSlash(Split(text))
  {
    if text != "" {
      JoinSplit(text[1..]);
      var rest := Split(text[1..]);
      assert text == [text[0]] + text[1..];
      if text[0] == '/' {
        JoinSlash(rest);
      } else {
        JoinLonger(text[0], rest);
      }
    }
  }

  /** A reference resolves only if it begins with "#/", and then along its parts between slashes, unescaped. */
  lemma ResolvesLocally(spec: Value, ref: string)
    ensures !("#/" <= ref) ==> Resolve(spec, ref) == None
    ensures "#/" <= ref ==> exists tokens, keys ::
              ref == "#/" + Join(tokens) && |keys| == |tokens| >= 1
              && NoSlash(tokens) && (forall i :: 0 <= i < |tokens| ==> keys[i] == Unescape(tokens[i]))
              && Resolve(spec, ref) == Follow(spec, keys)
  {
    if "#/" <= ref {
      var tokens := Split(ref[2..]);
      JoinSplit(ref[2..]);
      assert ref == "#/" + ref[2..];
      assert ref == "#/" + Join(tokens) && Resolve(spec, ref) == Follow(spec, Keys(tokens));
    }
  }

  // ----- why the order of the two replacements matters -----

  function WrongOrder(token: string): string
  {
    Replace(Replace(token, '~', '0', '~'), '~', '1', '/')
  }

  function SlashesEscaped(key: string): string
  {
    if key == "" then "" else (if key[0] == '/' then "~1" else [key[0]]) + SlashesEscaped(key[1..])
  }

  lemma {:induction false} TildesFirst(key: string)
    ensures Replace(Escape(key), '~', '0', '~') == SlashesEscaped(key)
  {
    if key != "" {
      TildesFirst(key[1..]);
      UnescapeTilde(key[0], Escape(key[1..]));
    }
  }

  predicate HasTildeOne(key: string)
  {
    exists i :: 0 <= i < |key| - 1 && key[i] == '~' && key[i + 1] == '1'
  }

  lemma HasTildeOneTail(key: string)
    requires key != ""
    ensures HasTildeOne(key) <==> (|key| >= 2 && key[0] == '~' && key[1] == '1') || HasTildeOne(key[1..])
  {
    var tail := key[1..];
    if HasTildeOne(tail) {
      var i :| 0 <= i < |tail| - 1 && tail[i] == '~' && tail[i + 1] == '1';
      assert key[i + 1] == '~' && key[i + 2] == '1';
    }
    if HasTildeOne(key) {
      var i :| 0 <= i < |key| - 1 && key[i] == '~' && key[i + 1] == '1';
      assert i > 0 ==> tail[i - 1] == '~' && tail[i] == '1';
    }
  }

  lemma {:induction false} SlashesLast(key: string)
    ensures var text := Replace(SlashesEscaped(key), '~', '1', '/');
            if HasTildeOne(key) then |text| < |key| else text == key
  {
    if key != "" {
      var h, rest := SlashesEscaped(key), SlashesEscaped(key[1..]);
      HasTildeOneTail(key);
      SlashesLast(key[1..]);
      assert key == [key[0]] + key[1..];
      if key[0] == '/' {
        assert h[2..] == rest;
      } else if key[0] == '~' && |key| >= 2 && key[1] == '1' {
        HasTildeOneTail(key[1..]);
        SlashesLast(key[2..]);
        assert key[1..][1..] == key[2..];
        assert rest == "1" + SlashesEscaped(key[2..]);
        assert h == "~1" + SlashesEscaped(key[2..]);
        assert h[2..] == SlashesEscaped(key[2..]);
      } else {
        assert h == [key[0]] + rest && h[1..] == rest;
        assert key[0] == '~' && rest != "" ==> rest[0] != '1';
      }
    }
  }

  /** Undoing the escapes in the other order gives the key back if and only if it contains no "~1". */
  lemma WrongOrderIff(key: string)
    ensures WrongOrder(Escape(key)) == key <==> !HasTildeOne(key)
  {
    TildesFirst(key);
    SlashesLast(key);
  }
}
