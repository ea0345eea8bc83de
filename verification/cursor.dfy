// The pull cursor: a server sequence printed in decimal, read back defensively, moved forward only.

module Cursor {
  import opened SyncTypes
  import opened ClientPull

  const INITIAL_CURSOR := "0"

  /** The largest value of a signed 64-bit column. */
  const MAX_SEQ: nat := 9_223_372_036_854_775_807

  predicate IsDigit(c: char) { '0' <= c <= '9' }

  predicate Decimal(s: string) {
    s != [] && forall i :: 0 <= i < |s| ==> IsDigit(s[i])
  }

  function Value(s: string): nat
    requires forall i :: 0 <= i < |s| ==> IsDigit(s[i])
  {
    if s == [] then 0
    else
      assert IsDigit(s[|s| - 1]);
      Value(s[..|s| - 1]) * 10 + (s[|s| - 1] as int - '0' as int)
  }

  function DigitChar(d: nat): char
    requires d < 10
  {
    ('0' as int + d) as char
  }

  function CursorFromSeq(n: nat): string {
    if n < 10 then [DigitChar(n)] else CursorFromSeq(n / 10) + [DigitChar(n % 10)]
  }

  function ParseCursor(s: string): nat {
    if !Decimal(s) then 0 else if Value(s) > MAX_SEQ then 0 else Value(s)
  }

  predicate IsCursorAhead(next: string, prev: string) { ParseCursor(next) > ParseCursor(prev) }

  lemma {:induction false} PrintedValue(n: nat)
    ensures Decimal(CursorFromSeq(n)) && Value(CursorFromSeq(n)) == n
    ensures CursorFromSeq(n) == "0" || CursorFromSeq(n)[0] != '0'
  {
    var s := CursorFromSeq(n);
    if n >= 10 {
      PrintedValue(n / 10);
      assert s[..|s| - 1] == CursorFromSeq(n / 10);
    } else {
      assert s[..0] == [] && Value(s[..0]) == 0;
    }
  }

  /** A printed sequence is read back as itself exactly when it fits the column. */
  lemma SeqRoundTrip(n: nat)
    ensures ParseCursor(CursorFromSeq(n)) == n <==> n <= MAX_SEQ
  {
    PrintedValue(n);
  }

  /** The plain decimal form without leading zeros. */
  predicate Canonical(s: string) {
    Decimal(s) && Value(s) <= MAX_SEQ && (s == "0" || s[0] != '0')
  }

  lemma {:induction false} NonzeroValue(s: string)
    requires Decimal(s) && s[0] != '0'
    ensures Value(s) >= 1 && (|s| >= 2 ==> Value(s) >= 10)
  {
    if |s| >= 2 {
      NonzeroValue(s[..|s| - 1]);
    } else {
      assert s[..0] == [] && Value(s[..0]) == 0;
    }
  }

  lemma {:induction false} PrintsBack(s: string)
    requires Decimal(s) && (s == "0" || s[0] != '0')
    ensures CursorFromSeq(Value(s)) == s
  {
    var n := |s| - 1;
    assert s == s[..n] + [s[n]];
    if n == 0 {
      assert s[..0] == [] && Value(s[..0]) == 0;
    } else {
      NonzeroValue(s);
      PrintsBack(s[..n]);
    }
  }

  /** A received cursor survives reading and printing exactly when it is canonical; everything else,
      however long or malformed, means some other position, from the start at worst. */
  lemma CursorRoundTrip(s: string)
    ensures CursorFromSeq(ParseCursor(s)) == s <==> Canonical(s)
    ensures ParseCursor(s) <= MAX_SEQ
  {
    PrintedValue(ParseCursor(s));
    if Canonical(s) { PrintsBack(s); }
  }

  /** The stored cursor after a delta's watermark: compared and written in one transaction. */
  function Advanced(stored: Option<string>, watermark: string): string {
    if stored.None? || IsCursorAhead(watermark, stored.value) then watermark else stored.value
  }

  /** On any stored text and any watermark, the position never moves back and ends at the later one. */
  lemma AdvanceIsForward(stored: Option<string>, watermark: string)
    ensures var before := ParseCursor(stored.GetOr(INITIAL_CURSOR));
      var after := ParseCursor(Advanced(stored, watermark));
      after >= before && after == AdvanceCursor(before, ParseCursor(watermark))
      && after == Max(before, ParseCursor(watermark))
  {
    assert Value("0"[..0]) == 0;
    assert ParseCursor(INITIAL_CURSOR) == 0;
  }

  /** Watermarks may arrive in any order: the final position is the same. */
  lemma AdvanceCommutes(stored: Option<string>, a: string, b: string)
    ensures ParseCursor(Advanced(Some(Advanced(stored, a)), b)) == ParseCursor(Advanced(Some(Advanced(stored, b)), a))
  {
    AdvanceIsForward(stored, a);
    AdvanceIsForward(stored, b);
    AdvanceIsForward(Some(Advanced(stored, a)), b);
    AdvanceIsForward(Some(Advanced(stored, b)), a);
  }
}
