/**
 Opaque pagination cursors: escaped sort-key fields joined by a separator.

 A token is either the base64url text (RFC 4648 section 5) of some raw string, or
 text that is not base64url at all; the alphabet itself is taken as given.
 */
module Cursor {
  import opened Prelude
  import opened Text

  const CURSOR_VERSION := "v1"
  const SEPARATOR := '\U{1f}'
  const ESCAPE := '\\'

  datatype Token = Base64Url(raw: string) | NotBase64Url

  datatype CursorError = BadBase64 | FieldCount | Version | EmptyField

  // ---- Escaping ----

  function ReplaceAll(s: string, c: char, replacement: string): string {
    if s == "" then "" else (if s[0] == c then replacement else [s[0]]) + ReplaceAll(s[1..], c, replacement)
  }

  /** Escapes first, separators second, as two passes over the field. */
  function EscapeField(field: string): string {
    ReplaceAll(ReplaceAll(field, ESCAPE, [ESCAPE, ESCAPE]), SEPARATOR, [ESCAPE, 'u'])
  }

  /** What the field's text means, reading escapes from the left; an unknown escape stands for itself. */
  function Unescaped(field: string): string {
    if field == "" then ""
    else if field[0] != ESCAPE || |field| == 1 then [field[0]] + Unescaped(field[1..])
    else if field[1] == 'u' then [SEPARATOR] + Unescaped(field[2..])
    else if field[1] == ESCAPE then [ESCAPE] + Unescaped(field[2..])
    else [field[0]] + Unescaped(field[1..])
  }

  /** The character at i as it reads, and where the next one starts. */
  function ReadChar(field: string, i: nat): (char, nat)
    requires i < |field|
  {
    if field[i] != ESCAPE || i + 1 >= |field| then (field[i], i + 1)
    else if field[i + 1] == 'u' then (SEPARATOR, i + 2)
    else if field[i + 1] == ESCAPE then (ESCAPE, i + 2)
    else (field[i], i + 1)
  }

  lemma UnescapedFrom(field: string, i: nat)
    requires i < |field|
    ensures ReadChar(field, i).1 <= |field|
    ensures Unescaped(field[i..]) == [ReadChar(field, i).0] + Unescaped(field[ReadChar(field, i).1..])
  {
    var rest := field[i..];
    assert rest[1..] == field[i + 1..];
    if i + 1 < |field| {
      assert rest[2..] == field[i + 2..];
    }
  }

  lemma Shift(out: string, c: char, tail: string, whole: string)
    requires out + ([c] + tail) == whole
    ensures out + [c] + tail == whole
  {
    assert out + [c] + tail == out + ([c] + tail);
  }

  /** out is what the field's first i characters read as. */
  ghost predicate ReadUpTo(field: string, i: nat, out: string) {
    i <= |field| && out + Unescaped(field[i..]) == Unescaped(field)
  }

  lemma ReadOneMore(field: string, i: nat, out: string)
    requires i < |field| && ReadUpTo(field, i, out)
    ensures ReadUpTo(field, ReadChar(field, i).1, out + [ReadChar(field, i).0])
  {
    var (c, next) := ReadChar(field, i);
    UnescapedFrom(field, i);
    Shift(out, c, Unescaped(field[next..]), Unescaped(field));
  }

  method UnescapeField(field: string) returns (out: string)
    ensures out == Unescaped(field)
  {
    out := "";
    var i := 0;
    assert field[0..] == field;
    while i < |field|
      invariant ReadUpTo(field, i, out)
      decreases |field| - i
    {
      ReadOneMore(field, i, out);
      if field[i] != ESCAPE || i + 1 >= |field| {
        out := out + [field[i]];
        i := i + 1;
        continue;
      }
      if field[i + 1] == 'u' {
        out := out + [SEPARATOR];
      } else if field[i + 1] == ESCAPE {
        out := out + [ESCAPE];
      } else {
        out := out + [field[i]];
        i := i + 1;
        continue;
      }
      i := i + 2;
    }
    assert field[i..] == "";
  }

  lemma {:induction false} ReplaceAllConcat(a: string, b: string, c: char, replacement: string)
    ensures ReplaceAll(a + b, c, replacement) == ReplaceAll(a, c, replacement) + ReplaceAll(b, c, replacement)
  {
    if a == "" {
      assert a + b == b;
    } else {
      assert (a + b)[1..] == a[1..] + b;
      ReplaceAllConcat(a[1..], b, c, replacement);
    }
  }

  /** Because escapes are doubled first, each character of the field is escaped on its own. */
  lemma EscapeStep(field: string)
    requires field != ""
    ensures EscapeField(field) ==
      (if field[0] == ESCAPE then [ESCAPE, ESCAPE] else if field[0] == SEPARATOR then [ESCAPE, 'u'] else [field[0]])
      + EscapeField(field[1..])
  {
    var first := if field[0] == ESCAPE then [ESCAPE, ESCAPE] else [field[0]];
    ReplaceAllConcat(first, ReplaceAll(field[1..], ESCAPE, [ESCAPE, ESCAPE]), SEPARATOR, [ESCAPE, 'u']);
    if field[0] == ESCAPE {
      assert first[1..] == [ESCAPE] && first[1..][1..] == "";
      assert ReplaceAll(first, SEPARATOR, [ESCAPE, 'u']) == first;
    } else {
      assert first[1..] == "";
    }
  }

  lemma {:induction false} UnescapeInvertsEscape(field: string)
    ensures Unescaped(EscapeField(field)) == field
    ensures SEPARATOR !in EscapeField(field)
    ensures EscapeField(field) == "" <==> field == ""
  {
    if field != "" {
      EscapeStep(field);
      UnescapeInvertsEscape(field[1..]);
      var escaped := EscapeField(field);
      if field[0] == ESCAPE || field[0] == SEPARATOR {
        assert escaped[2..] == EscapeField(field[1..]);
      } else {
        assert escaped[1..] == EscapeField(field[1..]);
      }
      assert field == [field[0]] + field[1..];
    }
  }

  // ---- Whole cursors ----

  function EscapeAll(fields: seq<string>): (escaped: seq<string>)
    ensures |escaped| == |fields|
    ensures forall i | 0 <= i < |fields| :: escaped[i] == EscapeField(fields[i])
  {
    seq(|fields|, i requires 0 <= i < |fields| => EscapeField(fields[i]))
  }

  function UnescapeAll(parts: seq<string>): (fields: seq<string>)
    ensures |fields| == |parts|
    ensures forall i | 0 <= i < |parts| :: fields[i] == Unescaped(parts[i])
  {
    seq(|parts|, i requires 0 <= i < |parts| => Unescaped(parts[i]))
  }

  function Encoded(fields: seq<string>): Token {
    Base64Url(Join([CURSOR_VERSION] + EscapeAll(fields), SEPARATOR))
  }

  function Decoded(token: Token, wantFields: nat): Result<seq<string>, CursorError> {
    if token.NotBase64Url? then Err(BadBase64)
    else
      var parts := Split(token.raw, SEPARATOR);
      if |parts| != wantFields + 1 then Err(FieldCount)
      else if parts[0] != CURSOR_VERSION then Err(Version)
      else if "" in parts[1..] then Err(EmptyField)
      else Ok(UnescapeAll(parts[1..]))
  }

  method Encode(fields: seq<string>) returns (token: Token)
    ensures token == Encoded(fields)
  {
    var parts := [CURSOR_VERSION];
    for i := 0 to |fields|
      invariant parts == [CURSOR_VERSION] + EscapeAll(fields)[..i]
    {
      parts := parts + [EscapeField(fields[i])];
    }
    assert parts == [CURSOR_VERSION] + EscapeAll(fields);
    return Base64Url(Join(parts, SEPARATOR));
  }

  method Decode(token: Token, wantFields: nat) returns (r: Result<seq<string>, CursorError>)
    ensures r == Decoded(token, wantFields)
  {
    if token.NotBase64Url? {
      return Err(BadBase64);
    }
    var parts := Split(token.raw, SEPARATOR);
    if |parts| != wantFields + 1 {
      return Err(FieldCount);
    }
    if parts[0] != CURSOR_VERSION {
      return Err(Version);
    }
    var fields: seq<string> := [];
    for i := 1 to |parts|
      invariant fields == UnescapeAll(parts[1..])[..i - 1]
      invariant "" !in parts[1..i]
    {
      if parts[i] == "" {
        assert parts[1..][i - 1] == "";
        return Err(EmptyField);
      }
      var field := UnescapeField(parts[i]);
      fields := fields + [field];
      assert parts[1..i + 1] == parts[1..i] + [parts[i]];
    }
    assert parts[1..|parts|] == parts[1..];
    assert fields == UnescapeAll(parts[1..]);
    return Ok(fields);
  }

  /** Decoding inverts encoding on every list of non-empty fields, and says exactly what is wrong otherwise. */
  lemma DecodeInvertsEncode(fields: seq<string>, wantFields: nat)
    ensures Decoded(Encoded(fields), wantFields) ==
      if |fields| != wantFields then Err(FieldCount)
      else if "" in fields then Err(EmptyField)
      else Ok(fields)
  {
    var escaped := EscapeAll(fields);
    var parts := [CURSOR_VERSION] + escaped;
    forall p | p in parts ensures SEPARATOR !in p {
      if p != CURSOR_VERSION {
        var i :| 0 <= i < |fields| && escaped[i] == p;
        UnescapeInvertsEscape(fields[i]);
      }
    }
    SplitJoin(parts, SEPARATOR);
    assert parts[1..] == escaped;
    forall i | 0 <= i < |fields|
      ensures UnescapeAll(escaped)[i] == fields[i] && (escaped[i] == "" <==> fields[i] == "")
    {
      UnescapeInvertsEscape(fields[i]);
    }
    assert UnescapeAll(escaped) == fields;
  }

  // ---- What is accepted ----

  lemma {:induction false} UnescapedPrefix(plain: string, rest: string)
    requires ESCAPE !in plain
    ensures Unescaped(plain + rest) == plain + Unescaped(rest)
  {
    if plain == "" {
      assert plain + rest == rest;
    } else {
      assert (plain + rest)[1..] == plain[1..] + rest;
      UnescapedPrefix(plain[1..], rest);
      assert plain == [plain[0]] + plain[1..];
    }
  }

  /**
   Up to its first escape a field stands as it is; there the two escapes are read, and any other, or one at the
   end, stands too.
   */
  lemma UnescapedReads(plain: string, c: char, rest: string)
    requires ESCAPE !in plain
    ensures Unescaped(plain) == plain
    ensures Unescaped(plain + [ESCAPE]) == plain + [ESCAPE]
    ensures Unescaped(plain + ([ESCAPE, c] + rest)) == plain + (
              if c == 'u' then [SEPARATOR] + Unescaped(rest)
              else if c == ESCAPE then [ESCAPE] + Unescaped(rest)
              else [ESCAPE] + ([c] + Unescaped(rest)))
  {
    UnescapedPrefix(plain, "");
    assert plain + "" == plain;
    UnescapedPrefix(plain, [ESCAPE]);
    assert [ESCAPE][1..] == "";
    var field := [ESCAPE, c] + rest;
    UnescapedPrefix(plain, field);
    assert field[2..] == rest && field[1..] == [c] + rest;
    if c != ESCAPE {
      UnescapedPrefix([c], rest);
    }
  }

  /** A version, then as many fields as wanted, none of them empty. */
  ghost predicate IsCursor(token: Token, parts: seq<string>, fields: seq<string>) {
    && |parts| == |fields| && token == Base64Url(Join(["v1"] + parts, SEPARATOR))
    && forall i | 0 <= i < |parts| :: parts[i] != "" && SEPARATOR !in parts[i] && fields[i] == Unescaped(parts[i])
  }

  /** A token is decoded to these fields exactly if it is a cursor of them, however it was made. */
  lemma DecodedExactly(token: Token, wantFields: nat, fields: seq<string>)
    ensures Decoded(token, wantFields) == Ok(fields) <==> |fields| == wantFields && exists parts :: IsCursor(token, parts, fields)
  {
    if Decoded(token, wantFields) == Ok(fields) {
      JoinSplit(token.raw, SEPARATOR);
      var parts := Split(token.raw, SEPARATOR);
      assert parts == ["v1"] + parts[1..];
      assert IsCursor(token, parts[1..], fields);
    }
    if parts :| IsCursor(token, parts, fields) {
      var all := ["v1"] + parts;
      assert forall i | 0 <= i < |all| :: SEPARATOR !in all[i];
      SplitJoin(all, SEPARATOR);
      assert all[1..] == parts;
      if |fields| == wantFields {
        assert UnescapeAll(parts) == fields;
      }
    }
  }
}
