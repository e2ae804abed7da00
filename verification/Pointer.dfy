/** Local JSON Pointers: harness/validator.py, `resolve_ref`. */
module Pointer {
  import opened Json
  import opened Text

  /** Why `resolve_ref` raises ContractLookupError. */
  datatype RefError = RemoteRef | Dangling | NotAnObject

  /** `s.replace("~" + second, [to])`: leftmost first, replaced text is not read again. */
  function Replace(s: string, second: char, to: char): string {
    if |s| < 2 then s
    else if s[0] == '~' && s[1] == second then [to] + Replace(s[2..], second, to)
    else [s[0]] + Replace(s[1..], second, to)
  }

  /** One pointer token back to a key: "~1" first, then "~0" (section 4 of RFC 6901). */
  function Unescape(token: string): string {
    Replace(Replace(token, '1', '/'), '0', '~')
  }

  function UnescapeAll(tokens: seq<string>): (keys: seq<string>)
    ensures |keys| == |tokens|
    ensures forall i | 0 <= i < |tokens| :: keys[i] == Unescape(tokens[i])
  {
    if tokens == [] then [] else [Unescape(tokens[0])] + UnescapeAll(tokens[1..])
  }

  /** Descend through nested objects, one key at a time. */
  function Walk(node: Json, keys: seq<string>): Option<Json> {
    if keys == [] then Some(node)
    else if node.JObj? && keys[0] in node.m then Walk(node.m[keys[0]], keys[1..])
    else None
  }

  /** What a walk that ended at `found` means for `resolve_ref`. */
  function Answer(found: Option<Json>): Result<Json, RefError> {
    match found
    case None => Err(Dangling)
    case Some(node) => if node.JObj? then Ok(node) else Err(NotAnObject)
  }

  function ResolveRef(contract: Json, ref: string): (r: Result<Json, RefError>)
    ensures r.Ok? ==> r.value.JObj?
  {
    if !("#/" <= ref) then Err(RemoteRef)
    else Answer(Walk(contract, UnescapeAll(Split(ref[2..], '/'))))
  }

  /** `resolve_ref` as written: a loop that moves `node` down the document. */
  method ResolveRefLoop(contract: Json, ref: string) returns (r: Result<Json, RefError>)
    ensures r == ResolveRef(contract, ref)
  {
    if !("#/" <= ref) {
      return Err(RemoteRef);
    }
    var tokens := Split(ref[2..], '/');
    var node := contract;
    for i := 0 to |tokens|
      invariant Walk(contract, UnescapeAll(tokens)) == Walk(node, UnescapeAll(tokens)[i..])
    {
      var key := Unescape(tokens[i]);
      if !node.JObj? || key !in node.m {
        return Err(Dangling);
      }
      node := node.m[key];
    }
    return if node.JObj? then Ok(node) else Err(NotAnObject);
  }

  // ----- printing pointers -----

  function EscapeChar(c: char): string {
    if c == '~' then "~0" else if c == '/' then "~1" else [c]
  }

  /** A key as a pointer token (section 3 of RFC 6901). */
  function Escape(key: string): string {
    if key == "" then "" else EscapeChar(key[0]) + Escape(key[1..])
  }

  function EscapeAll(keys: seq<string>): (tokens: seq<string>)
    ensures |tokens| == |keys|
    ensures forall i | 0 <= i < |keys| :: tokens[i] == Escape(keys[i])
  {
    if keys == [] then [] else [Escape(keys[0])] + EscapeAll(keys[1..])
  }

  function PrintPointer(keys: seq<string>): string {
    "#/" + Join(EscapeAll(keys), '/')
  }

  /** The key with only its tildes escaped: what is left once "~1" has been replaced. */
  function EscapeTildes(key: string): string {
    if key == "" then "" else (if key[0] == '~' then "~0" else [key[0]]) + EscapeTildes(key[1..])
  }

  lemma {:induction false} SlashesComeBack(key: string)
    ensures '/' !in Escape(key)
    ensures Replace(Escape(key), '1', '/') == EscapeTildes(key)
    ensures Escape(key) != "" ==> Escape(key)[0] != '1' || key[0] == '1'
  {
    if key != "" {
      var rest := Escape(key[1..]);
      SlashesComeBack(key[1..]);
      var s := Escape(key);
      if key[0] == '~' {
        assert s == ['~', '0'] + rest && s[1..] == ['0'] + rest && s[1..][1..] == rest;
      } else if key[0] == '/' {
        assert s == ['~', '1'] + rest && s[2..] == rest;
      } else {
        assert s == [key[0]] + rest && s[1..] == rest;
      }
    }
  }

  lemma {:induction false} TildesComeBack(key: string)
    ensures Replace(EscapeTildes(key), '0', '~') == key
  {
    if key != "" {
      var rest := EscapeTildes(key[1..]);
      TildesComeBack(key[1..]);
      var s := EscapeTildes(key);
      if key[0] == '~' {
        assert s == ['~', '0'] + rest && s[2..] == rest;
      } else {
        assert s == [key[0]] + rest && s[1..] == rest;
      }
      assert key == [key[0]] + key[1..];
    }
  }

  lemma UnescapeEscape(key: string)
    ensures Unescape(Escape(key)) == key
  {
    SlashesComeBack(key);
    TildesComeBack(key);
  }

  /** A printed pointer names exactly the node its key path leads to, whatever the keys hold. */
  lemma PointerRoundTrip(contract: Json, keys: seq<string>)
    requires keys != []
    ensures ResolveRef(contract, PrintPointer(keys)) == Answer(Walk(contract, keys))
  {
    var tokens := EscapeAll(keys);
    forall i | 0 <= i < |keys| ensures '/' !in tokens[i] && Unescape(tokens[i]) == keys[i] {
      SlashesComeBack(keys[i]);
      UnescapeEscape(keys[i]);
    }
    SplitJoin(tokens, '/');
    assert PrintPointer(keys)[2..] == Join(tokens, '/');
    assert UnescapeAll(tokens) == keys;
  }

  /** Replacing "~0" before "~1" would not do: the token "~01" stands for the key "~1". */
  lemma UnescapeOrderMatters()
    ensures Unescape("~01") == "~1"
    ensures Replace(Replace("~01", '0', '~'), '1', '/') == "/"
  {
    assert "~01"[1..] == "01" && "~01"[2..] == "1" && "~1"[2..] == "";
    assert Replace("~01", '0', '~') == "~" + "1" == "~1";
    assert Replace("~1", '1', '/') == "/" + Replace("", '1', '/');
    assert Replace("01", '1', '/') == "01";
  }

  /** What a reference leads to is a part of the contract. */
  lemma {:induction false} WalkKeeps(node: Json, keys: seq<string>, p: Json -> bool)
    requires p(node)
    requires forall j: Json, k | p(j) && j.JObj? && k in j.m :: p(j.m[k])
    ensures Walk(node, keys).Some? ==> p(Walk(node, keys).value)
  {
    if keys != [] && node.JObj? && keys[0] in node.m {
      WalkKeeps(node.m[keys[0]], keys[1..], p);
    }
  }
}
