/** Joining and splitting strings, and decimal numerals: the pieces every printed format shares. */
module Text {
  import opened Prelude

  // ---- Join and split ----

  function Join(parts: seq<string>, sep: char): string {
    if parts == [] then ""
    else if |parts| == 1 then parts[0]
    else parts[0] + [sep] + Join(parts[1..], sep)
  }

  /** Every maximal stretch without the separator, in order; always at least one. */
  function Split(s: string, sep: char): (parts: seq<string>)
    ensures parts != []
  {
    if s == "" then [""]
    else
      var rest := Split(s[1..], sep);
      if s[0] == sep then [""] + rest else [[s[0]] + rest[0]] + rest[1..]
  }

  lemma {:induction false} SplitAtSeparator(head: string, sep: char, tail: string)
    requires sep !in head
    ensures Split(head + [sep] + tail, sep) == [head] + Split(tail, sep)
  {
    var s := head + [sep] + tail;
    if head == "" {
      assert s[1..] == tail;
    } else {
      assert s[1..] == head[1..] + [sep] + tail;
      SplitAtSeparator(head[1..], sep, tail);
      assert [head[0]] + head[1..] == head;
    }
  }

  lemma {:induction false} SplitWhole(s: string, sep: char)
    requires sep !in s
    ensures Split(s, sep) == [s]
  {
    if s != "" {
      SplitWhole(s[1..], sep);
      assert [s[0]] + s[1..] == s;
    }
  }

  lemma {:induction false} SplitJoin(parts: seq<string>, sep: char)
    requires parts != []
    requires forall p | p in parts :: sep !in p
    ensures Split(Join(parts, sep), sep) == parts
  {
    if |parts| == 1 {
      SplitWhole(parts[0], sep);
    } else {
      SplitAtSeparator(parts[0], sep, Join(parts[1..], sep));
      SplitJoin(parts[1..], sep);
    }
  }

  /** The text before and after the first occurrence of c. */
  function Cut(s: string, c: char): Option<(string, string)> {
    if s == "" then None
    else if s[0] == c then Some(("", s[1..]))
    else match Cut(s[1..], c)
      case None => None
      case Some((before, after)) => Some(([s[0]] + before, after))
  }

  lemma {:induction false} CutAtFirst(before: string, c: char, after: string)
    requires c !in before
    ensures Cut(before + [c] + after, c) == Some((before, after))
  {
    var s := before + [c] + after;
    if before == "" {
      assert s[1..] == after;
    } else {
      assert s[1..] == before[1..] + [c] + after;
      CutAtFirst(before[1..], c, after);
      assert [before[0]] + before[1..] == before;
    }
  }

  /** The text before and after the last occurrence of c. */
  function CutLast(s: string, c: char): Option<(string, string)> {
    if s == "" then None
    else if s[|s| - 1] == c then Some((s[..|s| - 1], ""))
    else match CutLast(s[..|s| - 1], c)
      case None => None
      case Some((before, after)) => Some((before, after + [s[|s| - 1]]))
  }

  lemma {:induction false} CutAtLast(before: string, c: char, after: string)
    requires c !in after
    ensures CutLast(before + [c] + after, c) == Some((before, after))
  {
    var s := before + [c] + after;
    if after == "" {
      assert s[..|s| - 1] == before;
    } else {
      assert s[..|s| - 1] == before + [c] + after[..|after| - 1];
      CutAtLast(before, c, after[..|after| - 1]);
      assert after[..|after| - 1] + [after[|after| - 1]] == after;
    }
  }

  // ---- And back ----

  lemma {:induction false} JoinSplit(s: string, sep: char)
    ensures Join(Split(s, sep), sep) == s
    ensures forall i | 0 <= i < |Split(s, sep)| :: sep !in Split(s, sep)[i]
  {
    if s != "" {
      JoinSplit(s[1..], sep);
      var rest := Split(s[1..], sep);
      assert [s[0]] + s[1..] == s;
      if s[0] == sep {
        assert ([""] + rest)[1..] == rest;
      } else {
        var grown := [[s[0]] + rest[0]] + rest[1..];
        JoinGrown(s[0], rest, sep);
        assert forall i | 0 < i < |grown| :: grown[i] == rest[i];
      }
    }
  }

  lemma JoinGrown(c: char, rest: seq<string>, sep: char)
    requires rest != []
    ensures Join([[c] + rest[0]] + rest[1..], sep) == [c] + Join(rest, sep)
  {
    var grown := [[c] + rest[0]] + rest[1..];
    assert grown[1..] == rest[1..];
    if |rest| > 1 {
      assert [c] + rest[0] + [sep] + Join(rest[1..], sep) == [c] + (rest[0] + [sep] + Join(rest[1..], sep));
    }
  }

  lemma {:induction false} CutGives(s: string, c: char)
    requires Cut(s, c).Some?
    ensures var (before, after) := Cut(s, c).value; s == before + [c] + after && c !in before
  {
    if s[0] != c {
      CutGives(s[1..], c);
      var (before, after) := Cut(s[1..], c).value;
      assert s == [s[0]] + s[1..];
      assert [s[0]] + before + [c] + after == [s[0]] + (before + [c] + after);
    }
  }

  lemma {:induction false} CutLastGives(s: string, c: char)
    requires CutLast(s, c).Some?
    ensures var (before, after) := CutLast(s, c).value; s == before + [c] + after && c !in after
  {
    var n := |s| - 1;
    assert s == s[..n] + [s[n]];
    if s[n] != c {
      CutLastGives(s[..n], c);
      var (before, after) := CutLast(s[..n], c).value;
      assert before + [c] + after + [s[n]] == before + [c] + (after + [s[n]]);
    }
  }

  // ---- Decimal numerals ----

  predicate IsDigit(c: char) {
    '0' <= c <= '9'
  }

  predicate OnlyDigits(s: string) {
    forall i | 0 <= i < |s| :: IsDigit(s[i])
  }

  predicate Digits(s: string) {
    s != "" && OnlyDigits(s)
  }

  function DigitChar(d: nat): char
    requires d < 10
  {
    '0' + d as char
  }

  function PrintNat(n: nat): string {
    if n < 10 then [DigitChar(n)] else PrintNat(n / 10) + [DigitChar(n % 10)]
  }

  function NumeralValue(s: string): nat
    requires OnlyDigits(s)
  {
    if s == "" then 0 else 10 * NumeralValue(s[..|s| - 1]) + (s[|s| - 1] - '0') as nat
  }

  lemma {:induction false} PrintedNumeral(n: nat)
    ensures Digits(PrintNat(n)) && NumeralValue(PrintNat(n)) == n
  {
    if n < 10 {
      assert PrintNat(n)[..0] == "";
    } else {
      PrintedNumeral(n / 10);
      assert PrintNat(n)[..|PrintNat(n)| - 1] == PrintNat(n / 10);
    }
  }

  const UINT64_LIMIT := 0x1_0000_0000_0000_0000
  const INT64_LIMIT := 0x8000_0000_0000_0000

  type Uint64 = n: nat | n < UINT64_LIMIT

  /** strconv.ParseUint(s, 10, 64): digits only, in range. */
  function ParseUint64(s: string): Option<Uint64> {
    if Digits(s) && NumeralValue(s) < UINT64_LIMIT then Some(NumeralValue(s)) else None
  }

  /** A 64-bit decimal with an optional sign, as Go's ParseInt and Rust's i64 parser read it. */
  function ParseInt64(s: string): Option<int> {
    if s == "" then None
    else
      var unsigned := if s[0] == '+' || s[0] == '-' then s[1..] else s;
      if !Digits(unsigned) then None
      else
        var value: int := if s[0] == '-' then -(NumeralValue(unsigned) as int) else NumeralValue(unsigned);
        if -INT64_LIMIT <= value < INT64_LIMIT then Some(value) else None
  }

  function PrintInt(n: int): string {
    if n < 0 then "-" + PrintNat(-n) else PrintNat(n)
  }

  lemma ParsePrintedUint(n: Uint64)
    ensures ParseUint64(PrintNat(n)) == Some(n)
  {
    PrintedNumeral(n);
  }

  /** Both 64-bit readers invert the printer exactly on their range. */
  lemma ParsePrintedInt(n: int)
    ensures ParseInt64(PrintInt(n)) == if -INT64_LIMIT <= n < INT64_LIMIT then Some(n) else None
  {
    var magnitude: nat := if n < 0 then -n else n;
    var digits := PrintNat(magnitude);
    PrintedNumeral(magnitude);
    if n < 0 {
      assert PrintInt(n) == ['-'] + digits;
      assert PrintInt(n)[1..] == digits;
    } else {
      assert IsDigit(digits[0]);
    }
  }

  /** Nothing is left of s once ASCII white space is trimmed. */
  predicate Blank(s: string) {
    forall i | 0 <= i < |s| :: s[i] in " \t\n\r\U{0B}\U{0C}"
  }

  /** Blank are the texts of spaces, tabs, line feeds, carriage returns, vertical tabs and form feeds. */
  lemma BlankExactly(s: string)
    ensures Blank(s) <==>
      forall c | c in s :: c == ' ' || c == '\t' || c == '\n' || c == '\r' || c == '\U{0B}' || c == '\U{0C}'
  {
    if forall c | c in s :: c == ' ' || c == '\t' || c == '\n' || c == '\r' || c == '\U{0B}' || c == '\U{0C}' {
      assert forall i | 0 <= i < |s| :: s[i] in s;
    }
  }

  /** A printed number has no leading zero. */
  lemma {:induction false} PrintedPlainly(n: nat)
    ensures PrintNat(n) != "" && (PrintNat(n)[0] == '0' ==> PrintNat(n) == "0")
    ensures PrintNat(n) == "0" <==> n == 0
  {
    if n >= 10 {
      PrintedPlainly(n / 10);
      assert PrintNat(n)[0] == PrintNat(n / 10)[0];
    }
  }
}
