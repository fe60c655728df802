/**
 * What the query parser guarantees: where a right operand ends, how
 * escaped separators and bracketed lists read back, which operator is
 * recognised, and what every parsed criterion satisfies.
 */
module ParserProperties {
  import opened Text
  import opened QueryCriteria
  import opened QueryParser

  // ---------------------------------------------------------------------
  // Where findRightOp stops
  // ---------------------------------------------------------------------

  /**
   * The scan never reports an error and stops at the first unescaped single
   * separator (or at the end of the text). It panics on a separator at the
   * very start; read as intended it panics nowhere else, while the source's
   * slice can also panic at a later escaped separator.
   */
  lemma {:induction false} ScanStops(mode: Escaping, s: string, p: nat, elements: seq<string>, buffer: string)
    requires p <= |s| && Trails(s, p, buffer)
    ensures var r := ScanFrom(mode, s, p, elements, buffer);
      && !r.Err?
      && (p == 0 && |s| > 0 && s[0] == Separator ==> r.Panic?)
      && (r.Panic? ==> (p == 0 && |s| > 0 && s[0] == Separator) || (mode == AsWritten && exists q :: p <= q < |s| && EscapedAt(s, q)))
      && (r.Ok? && r.value.offset < |s| ==> StopsAt(s, r.value.offset) && r.value.buffer == "")
      && (r.Ok? ==> forall q :: p <= q < r.value.offset ==> !StopsAt(s, q))
    decreases |s| - p
  {
    if p < |s| {
      var step := Step(mode, s, p, elements, buffer);
      if step.Advance? {
        ScanStops(mode, s, p + 1, step.elements, step.buffer);
      } else if step.Fault? && p > 0 {
        assert EscapedAt(s, p);
      }
    }
  }

  /**
   * Where the two readings of an escape agree: every escaped separator the
   * scan reaches from p has no separator before it, and the buffer holds
   * one character per character read.
   */
  predicate EscapesInPlace(s: string, p: nat, buffer: string) {
    forall r :: p <= r < |s| && EscapedAt(s, r) && (forall q :: p <= q < r ==> !StopsAt(s, q)) ==>
      |buffer| == p && forall t :: p <= t < r ==> s[t] != Separator
  }

  /** Under that condition the source's slice and the intended escape scan alike. */
  lemma {:induction false} ScansAgree(s: string, p: nat, elements: seq<string>, buffer: string)
    requires p <= |s| && Trails(s, p, buffer) && EscapesInPlace(s, p, buffer)
    ensures ScanFrom(AsWritten, s, p, elements, buffer) == ScanFrom(Intended, s, p, elements, buffer)
    decreases |s| - p
  {
    if p < |s| {
      var step := Step(Intended, s, p, elements, buffer);
      if EscapedAt(s, p) {
        assert |buffer| == p;
      }
      assert Step(AsWritten, s, p, elements, buffer) == step;
      if step.Advance? {
        assert !StopsAt(s, p);
        forall r | p + 1 <= r < |s| && EscapedAt(s, r) && (forall q :: p + 1 <= q < r ==> !StopsAt(s, q))
          ensures |step.buffer| == p + 1 && forall t :: p + 1 <= t < r ==> s[t] != Separator
        {
          assert forall q :: p <= q < r ==> !StopsAt(s, q);
        }
        ScansAgree(s, p + 1, step.elements, step.buffer);
      }
    }
  }

  /**
   * A text whose only escaped separator comes before every other separator
   * has the same right operand under both readings.
   */
  lemma OperandsAgree(s: string, leftOp: string, operator: Operator, kind: CriterionType)
    requires EscapesInPlace(s, 0, "")
    ensures RightOperandOf(AsWritten, s, leftOp, operator, kind) == RightOperandOf(Intended, s, leftOp, operator, kind)
  {
    ScansAgree(s, 0, [], "");
  }

  // ---------------------------------------------------------------------
  // Escaped separators
  // ---------------------------------------------------------------------

  /** How a client writes a value that may contain separators: each `|` becomes `\|`. */
  function EscapeValue(v: string): (r: string)
    ensures |r| >= |v|
    decreases |v|
  {
    if |v| == 0 then ""
    else EscapeChar(v[0]) + EscapeValue(v[1..])
  }

  /** How one character is written. */
  function EscapeChar(c: char): string {
    if c == Separator then [Escape, Separator] else [c]
  }

  /** The text between positions p and q of s is the escaped form of v. */
  predicate Written(s: string, p: nat, q: nat, v: string)
    decreases |v|
  {
    if |v| == 0 then p == q
    else if v[0] == Separator then
      p + 2 <= q && q <= |s| && s[p] == Escape && s[p + 1] == Separator && Written(s, p + 2, q, v[1..])
    else p < q && q <= |s| && s[p] == v[0] && Written(s, p + 1, q, v[1..])
  }

  /** The escaped value as it appears inside a longer text. */
  lemma {:induction false} WrittenIn(s: string, p: nat, v: string)
    requires p + |EscapeValue(v)| <= |s|
    requires forall k :: 0 <= k < |EscapeValue(v)| ==> s[p + k] == EscapeValue(v)[k]
    ensures Written(s, p, p + |EscapeValue(v)|, v)
    decreases |v|
  {
    if |v| > 0 {
      var w := |EscapeChar(v[0])|;
      var e := EscapeValue(v);
      assert e == EscapeChar(v[0]) + EscapeValue(v[1..]);
      assert s[p] == e[0];
      if v[0] == Separator {
        assert s[p + 1] == e[1];
      }
      forall k | 0 <= k < |EscapeValue(v[1..])|
        ensures s[p + w + k] == EscapeValue(v[1..])[k]
      {
        assert s[p + (w + k)] == e[w + k];
      }
      WrittenIn(s, p + w, v[1..]);
    }
  }

  /** A written value starts with its first character, or with the escape of a separator. */
  lemma {:induction false} WrittenEnds(s: string, p: nat, q: nat, v: string)
    requires |v| > 0 && Written(s, p, q, v)
    ensures p < q <= |s|
    ensures s[p] == if v[0] == Separator then Escape else v[0]
    ensures s[q - 1] == v[|v| - 1]
    decreases |v|
  {
    if |v| > 1 {
      WrittenEnds(s, if v[0] == Separator then p + 2 else p + 1, q, v[1..]);
    }
  }

  /**
   * Scanning one written character appends the character to the buffer;
   * through the source's slice an escaped separator needs the buffer to
   * hold one character per character read.
   */
  lemma ScanWrittenChar(mode: Escaping, s: string, p: nat, elements: seq<string>, buffer: string, c: char)
    requires p + |EscapeChar(c)| <= |s| && Trails(s, p, buffer)
    requires if c == Separator then s[p] == Escape && s[p + 1] == Separator else s[p] == c
    requires mode == AsWritten && c == Separator ==> |buffer| == p
    ensures Trails(s, p + |EscapeChar(c)|, buffer + [c])
    ensures ScanFrom(mode, s, p, elements, buffer) == ScanFrom(mode, s, p + |EscapeChar(c)|, elements, buffer + [c])
  {
    if c == Separator {
      assert ScanFrom(mode, s, p, elements, buffer) == ScanFrom(mode, s, p + 1, elements, buffer + [Escape]);
      assert (buffer + [Escape])[..|buffer|] == buffer;
    }
  }

  /** A value holding at most one separator. */
  predicate AtMostOneSeparator(v: string)
    decreases |v|
  {
    |v| == 0 || if v[0] == Separator then Separator !in v[1..] else AtMostOneSeparator(v[1..])
  }

  /**
   * Scanning a written value appends the value itself to the buffer: read
   * as intended always, through the source's slice when the value has no
   * separator, or one and the buffer is in step with the offset.
   */
  lemma {:induction false} ScanWritten(mode: Escaping, s: string, p: nat, q: nat, elements: seq<string>, buffer: string, v: string)
    requires Written(s, p, q, v) && q <= |s| && Trails(s, p, buffer)
    requires mode == AsWritten ==> Separator !in v || (|buffer| == p && AtMostOneSeparator(v))
    ensures Trails(s, q, buffer + v)
    ensures ScanFrom(mode, s, p, elements, buffer) == ScanFrom(mode, s, q, elements, buffer + v)
    decreases |v|
  {
    if |v| == 0 {
      assert buffer + v == buffer;
    } else {
      var b1 := buffer + [v[0]];
      assert b1 + v[1..] == buffer + v;
      assert v == [v[0]] + v[1..];
      ScanWrittenChar(mode, s, p, elements, buffer, v[0]);
      ScanWritten(mode, s, if v[0] == Separator then p + 2 else p + 1, q, elements, b1, v[1..]);
    }
  }

  /**
   * Where a right operand can end: at the end of the text, or at a single
   * separator that follows neither a separator nor a backslash.
   */
  predicate Closes(s: string, q: nat)
    requires q <= |s|
  {
    || q == |s|
    || (&& 0 < q && s[q] == Separator && s[q - 1] != Separator && s[q - 1] != Escape
        && (q + 1 < |s| ==> s[q + 1] != Separator))
  }

  /** The scan stops at such a position, the buffer becoming the last element. */
  lemma ScanCloses(mode: Escaping, s: string, q: nat, elements: seq<string>, buffer: string)
    requires q <= |s| && Trails(s, q, buffer) && |buffer| > 0 && Closes(s, q)
    ensures ScanFrom(mode, s, q, elements, buffer).Ok?
    ensures ScanFrom(mode, s, q, elements, buffer).value.offset == q
    ensures Collected(ScanFrom(mode, s, q, elements, buffer).value) == elements + [buffer]
  {
  }

  /** A text that starts with one written value, closed there, reads back as that value. */
  lemma WrittenReadsBack(mode: Escaping, s: string, q: nat, v: string, leftOp: string, operator: Operator, kind: CriterionType)
    requires !IsMultiVariate(operator) && (mode == AsWritten ==> AtMostOneSeparator(v))
    requires q <= |s| && Written(s, 0, q, v) && Closes(s, q) && (q < |s| ==> |v| > 0)
    ensures RightOperandOf(mode, s, leftOp, operator, kind) == Ok(RightOperand([v], q))
  {
    ScanWritten(mode, s, 0, q, [], "", v);
    assert "" + v == v;
    if |v| > 0 {
      ScanCloses(mode, s, q, [], v);
      assert [] + [v] == [v];
    } else {
      assert ScanFrom(mode, s, |s|, [], v) == Ok(Scanned([], v, |s|));
    }
  }

  /**
   * A single-valued right operand written with escaped separators reads
   * back as exactly that value, and all of it is consumed: read as
   * intended for every value, through the source's slice for a value with
   * at most one separator.
   */
  lemma EscapedValueReadsBack(mode: Escaping, v: string, leftOp: string, operator: Operator, kind: CriterionType)
    requires !IsMultiVariate(operator) && (mode == AsWritten ==> AtMostOneSeparator(v))
    ensures RightOperandOf(mode, EscapeValue(v), leftOp, operator, kind) == Ok(RightOperand([v], |EscapeValue(v)|))
  {
    WrittenIn(EscapeValue(v), 0, v);
    WrittenReadsBack(mode, EscapeValue(v), |EscapeValue(v)|, v, leftOp, operator, kind);
  }

  // ---------------------------------------------------------------------
  // Bracketed lists
  // ---------------------------------------------------------------------

  /** Every value escaped. */
  function EscapeAll(ws: seq<string>): (r: seq<string>)
    ensures |r| == |ws|
    ensures forall k :: 0 <= k < |ws| ==> r[k] == EscapeValue(ws[k])
  {
    if |ws| == 0 then [] else [EscapeValue(ws[0])] + EscapeAll(ws[1..])
  }

  /** How a client writes a list operand: `[`, the escaped values joined by `||`, `]`. */
  function BracketList(ws: seq<string>): string {
    [OpenBracket] + Join(EscapeAll(ws), [Separator, Separator]) + [CloseBracket]
  }

  /**
   * The values a list can carry: not empty (an empty value would add a
   * separator) and not ending in a backslash (which would escape the
   * element separator).
   */
  predicate ListValue(w: string) {
    |w| > 0 && w[|w| - 1] != Escape
  }

  /** The text between p and q of s is the written values joined by `||`. */
  predicate ListWritten(s: string, p: nat, q: nat, ws: seq<string>)
    decreases |ws|
  {
    |ws| >= 1 && ListValue(ws[0]) &&
    var m := p + |EscapeValue(ws[0])|;
    Written(s, p, m, ws[0]) &&
    if |ws| == 1 then m == q
    else m + 2 <= q && q <= |s| && s[m] == Separator && s[m + 1] == Separator && ListWritten(s, m + 2, q, ws[1..])
  }

  /** The joined values as they appear inside a longer text. */
  lemma {:induction false} ListWrittenIn(s: string, p: nat, ws: seq<string>, j: string)
    requires |ws| >= 1 && forall k :: 0 <= k < |ws| ==> ListValue(ws[k])
    requires j == Join(EscapeAll(ws), [Separator, Separator])
    requires p + |j| <= |s| && forall k :: 0 <= k < |j| ==> s[p + k] == j[k]
    ensures ListWritten(s, p, p + |j|, ws)
    decreases |ws|
  {
    var e0 := EscapeValue(ws[0]);
    if |ws| == 1 {
      assert j == e0;
      WrittenIn(s, p, ws[0]);
    } else {
      var jr := Join(EscapeAll(ws[1..]), [Separator, Separator]);
      assert EscapeAll(ws)[1..] == EscapeAll(ws[1..]);
      assert j == e0 + [Separator, Separator] + jr;
      forall k | 0 <= k < |e0|
        ensures s[p + k] == e0[k]
      {
        assert j[k] == e0[k];
      }
      WrittenIn(s, p, ws[0]);
      var m := p + |e0|;
      assert s[m] == j[|e0|] && s[m + 1] == j[|e0| + 1];
      forall k | 0 <= k < |jr|
        ensures s[m + 2 + k] == jr[k]
      {
        assert s[p + (|e0| + 2 + k)] == j[|e0| + 2 + k];
      }
      ListWrittenIn(s, m + 2, ws[1..], jr);
    }
  }

  /** An unescaped `||` closes the buffer as an element. */
  lemma ScanElementSeparator(mode: Escaping, s: string, m: nat, elements: seq<string>, buffer: string)
    requires 0 < m && m + 2 < |s| && Trails(s, m, buffer)
    requires s[m] == Separator && s[m + 1] == Separator && s[m - 1] != Escape && s[m + 2] != Separator
    ensures ScanFrom(mode, s, m, elements, buffer) == ScanFrom(mode, s, m + 2, elements + [buffer], "")
  {
    assert ScanFrom(mode, s, m + 1, elements + [buffer], "") == ScanFrom(mode, s, m + 2, elements + [buffer], "");
  }

  /**
   * The elements and the buffer after scanning values joined by `||`:
   * the first value joins the buffer, each but the last becomes an
   * element, and the last is left in the buffer.
   */
  function Split(elements: seq<string>, buffer: string, ws: seq<string>): (seq<string>, string)
    requires |ws| >= 1
    decreases |ws|
  {
    if |ws| == 1 then (elements, buffer + ws[0])
    else Split(elements + [buffer + ws[0]], "", ws[1..])
  }

  /** Split loses nothing: its elements and buffer are the values, the buffer joined to the first. */
  lemma {:induction false} SplitCollects(elements: seq<string>, buffer: string, ws: seq<string>)
    requires |ws| >= 1
    ensures Split(elements, buffer, ws).0 + [Split(elements, buffer, ws).1] == elements + ws[0 := buffer + ws[0]]
    decreases |ws|
  {
    if |ws| == 1 {
      assert elements + [buffer + ws[0]] == elements + ws[0 := buffer + ws[0]];
    } else {
      SplitCollects(elements + [buffer + ws[0]], "", ws[1..]);
      assert "" + ws[1] == ws[1];
      assert ws[1..][0 := "" + ws[1]] == ws[1..];
      assert elements + [buffer + ws[0]] + ws[1..] == elements + ws[0 := buffer + ws[0]];
    }
  }

  /**
   * The list values the source's slice reads back: at most one separator,
   * in the first value. After an element separator the buffer falls behind
   * the offset, so an escape in a later value slices past its end.
   */
  predicate FirstOnlyEscaped(ws: seq<string>) {
    |ws| >= 1 && AtMostOneSeparator(ws[0]) && forall k :: 1 <= k < |ws| ==> Separator !in ws[k]
  }

  /** Scanning values joined by `||` ends in the state Split describes. */
  lemma {:induction false} ScanList(mode: Escaping, s: string, p: nat, q: nat, elements: seq<string>, buffer: string, ws: seq<string>)
    requires ListWritten(s, p, q, ws) && q <= |s| && Trails(s, p, buffer)
    requires mode == AsWritten ==>
      && (Separator !in ws[0] || (|buffer| == p && AtMostOneSeparator(ws[0])))
      && forall k :: 1 <= k < |ws| ==> Separator !in ws[k]
    ensures Trails(s, q, Split(elements, buffer, ws).1)
    ensures ScanFrom(mode, s, p, elements, buffer) == ScanFrom(mode, s, q, Split(elements, buffer, ws).0, Split(elements, buffer, ws).1)
    decreases |ws|
  {
    var m := p + |EscapeValue(ws[0])|;
    ScanWritten(mode, s, p, m, elements, buffer, ws[0]);
    if |ws| > 1 {
      var rest := ws[1..];
      WrittenEnds(s, p, m, ws[0]);
      WrittenEnds(s, m + 2, m + 2 + |EscapeValue(rest[0])|, rest[0]);
      ScanElementSeparator(mode, s, m, elements, buffer + ws[0]);
      ScanList(mode, s, m + 2, q, elements + [buffer + ws[0]], "", rest);
    }
  }

  /** The values of a list with `[` before the first and `]` after the last. */
  function Enclosed(ws: seq<string>): (r: seq<string>)
    requires |ws| >= 1
    ensures |r| == |ws|
  {
    var front := ws[0 := [OpenBracket] + ws[0]];
    front[|ws| - 1 := front[|ws| - 1] + [CloseBracket]]
  }

  /** The bracket check strips exactly the brackets Enclosed adds. */
  lemma BracketedEnclosed(ws: seq<string>, leftOp: string, operator: Operator, kind: CriterionType)
    requires IsMultiVariate(operator) && |ws| >= 1
    ensures Bracketed(Enclosed(ws), leftOp, operator, kind) == Ok(ws)
  {
    var n := |ws|;
    var values := Enclosed(ws);
    var first := values[0];
    var stripped := values[0 := first[1..]];
    var last := stripped[n - 1];
    if n == 1 {
      assert first == [OpenBracket] + ws[0] + [CloseBracket];
      assert last == ws[0] + [CloseBracket];
    } else {
      assert first == [OpenBracket] + ws[0];
      assert stripped[0] == ws[0];
      assert last == ws[n - 1] + [CloseBracket];
    }
    assert last[..|last| - 1] == ws[n - 1];
    assert stripped[n - 1 := last[..|last| - 1]] == ws;
  }

  /** A bracketed list is `[`, the joined values, and `]`. */
  lemma BracketListShape(ws: seq<string>)
    ensures var s := BracketList(ws);
      var j := Join(EscapeAll(ws), [Separator, Separator]);
      && |s| == |j| + 2 && s[0] == OpenBracket && s[|s| - 1] == CloseBracket
      && forall k :: 0 <= k < |j| ==> s[1 + k] == j[k]
  {
  }

  /** The scan of a bracketed list closed at q: Split of the joined values, the `]` closing the last. */
  lemma ScanBracketed(mode: Escaping, s: string, q: nat, ws: seq<string>)
    requires 2 <= q <= |s| && s[0] == OpenBracket && s[q - 1] == CloseBracket
    requires ListWritten(s, 1, q - 1, ws) && Closes(s, q) && (mode == AsWritten ==> FirstOnlyEscaped(ws))
    ensures var split := Split([], [OpenBracket], ws);
      && Scan(mode, s).Ok? && Scan(mode, s).value.offset == q
      && Collected(Scan(mode, s).value) == split.0 + [split.1 + [CloseBracket]]
  {
    assert "" + [OpenBracket] == [OpenBracket];
    assert ScanFrom(mode, s, 0, [], "") == ScanFrom(mode, s, 1, [], [OpenBracket]);
    ScanList(mode, s, 1, q - 1, [], [OpenBracket], ws);
    var split := Split([], [OpenBracket], ws);
    assert ScanFrom(mode, s, q - 1, split.0, split.1) == ScanFrom(mode, s, q, split.0, split.1 + [CloseBracket]);
    ScanCloses(mode, s, q, split.0, split.1 + [CloseBracket]);
  }

  /** A text that scans to the split values reads back as the values. */
  lemma SplitReadsBack(mode: Escaping, s: string, q: nat, ws: seq<string>, leftOp: string, operator: Operator, kind: CriterionType)
    requires IsMultiVariate(operator) && |ws| >= 1
    requires var split := Split([], [OpenBracket], ws);
      && Scan(mode, s).Ok? && Scan(mode, s).value.offset == q
      && Collected(Scan(mode, s).value) == split.0 + [split.1 + [CloseBracket]]
    ensures RightOperandOf(mode, s, leftOp, operator, kind) == Ok(RightOperand(ws, q))
  {
    var split := Split([], [OpenBracket], ws);
    SplitCollects([], [OpenBracket], ws);
    var front := ws[0 := [OpenBracket] + ws[0]];
    assert [] + front == front;
    assert |split.0| == |ws| - 1 && split.1 == front[|ws| - 1];
    var collected := split.0 + [split.1 + [CloseBracket]];
    assert collected == front[|ws| - 1 := front[|ws| - 1] + [CloseBracket]];
    assert collected == Enclosed(ws);
    BracketedEnclosed(ws, leftOp, operator, kind);
  }

  /** A text that starts with a bracketed list, closed there, reads back as the list. */
  lemma ListReadsBack(mode: Escaping, s: string, q: nat, ws: seq<string>, leftOp: string, operator: Operator, kind: CriterionType)
    requires IsMultiVariate(operator) && |ws| >= 1 && (mode == AsWritten ==> FirstOnlyEscaped(ws))
    requires 2 <= q <= |s| && s[0] == OpenBracket && s[q - 1] == CloseBracket
    requires ListWritten(s, 1, q - 1, ws) && Closes(s, q)
    ensures RightOperandOf(mode, s, leftOp, operator, kind) == Ok(RightOperand(ws, q))
  {
    ScanBracketed(mode, s, q, ws);
    SplitReadsBack(mode, s, q, ws, leftOp, operator, kind);
  }

  /** A text that starts with `[`, the joined values and `]`, closed there, reads back as the values. */
  lemma JoinedReadsBack(mode: Escaping, s: string, q: nat, ws: seq<string>, leftOp: string, operator: Operator, kind: CriterionType)
    requires IsMultiVariate(operator) && (mode == AsWritten ==> FirstOnlyEscaped(ws))
    requires |ws| >= 1 && forall k :: 0 <= k < |ws| ==> ListValue(ws[k])
    requires var j := Join(EscapeAll(ws), [Separator, Separator]);
      && q == |j| + 2 && q <= |s| && s[0] == OpenBracket && s[q - 1] == CloseBracket
      && (forall k :: 0 <= k < |j| ==> s[1 + k] == j[k])
      && Closes(s, q)
    ensures RightOperandOf(mode, s, leftOp, operator, kind) == Ok(RightOperand(ws, q))
  {
    ListWrittenIn(s, 1, ws, Join(EscapeAll(ws), [Separator, Separator]));
    ListReadsBack(mode, s, q, ws, leftOp, operator, kind);
  }

  /**
   * A bracketed list of escaped values reads back as exactly those values:
   * read as intended for every list, through the source's slice when only
   * the first value has a separator, and at most one.
   */
  lemma BracketListReadsBack(mode: Escaping, ws: seq<string>, leftOp: string, operator: Operator, kind: CriterionType)
    requires IsMultiVariate(operator) && (mode == AsWritten ==> FirstOnlyEscaped(ws))
    requires |ws| >= 1 && forall k :: 0 <= k < |ws| ==> ListValue(ws[k])
    ensures RightOperandOf(mode, BracketList(ws), leftOp, operator, kind) == Ok(RightOperand(ws, |BracketList(ws)|))
  {
    BracketListShape(ws);
    JoinedReadsBack(mode, BracketList(ws), |BracketList(ws)|, ws, leftOp, operator, kind);
  }

  // ---------------------------------------------------------------------
  // The escape as the source slices it
  // ---------------------------------------------------------------------

  /** A value with two escaped separators: the source's slice keeps the second backslash. */
  lemma SecondEscapeKeptAsWritten()
    ensures RightOperandOf(AsWritten, "a\\|b\\|c", "name", Equals, FieldQuery) == Ok(RightOperand(["a|b\\|c"], 7))
  {
    var s := "a\\|b\\|c";
    assert "a|b\\|" + [s[6]] == "a|b\\|c";
    assert ScanFrom(AsWritten, s, 6, [], "a|b\\|") == Ok(Scanned([], "a|b\\|c", 7));
    assert "a|b\\"[..4] + [s[5]] == "a|b\\|";
    assert ScanFrom(AsWritten, s, 5, [], "a|b\\") == ScanFrom(AsWritten, s, 6, [], "a|b\\|");
    assert "a|b" + [s[4]] == "a|b\\";
    assert "a|" + [s[3]] == "a|b";
    assert ScanFrom(AsWritten, s, 3, [], "a|") == ScanFrom(AsWritten, s, 5, [], "a|b\\");
    assert "a\\"[..1] + [s[2]] == "a|";
    assert ScanFrom(AsWritten, s, 2, [], "a\\") == ScanFrom(AsWritten, s, 3, [], "a|");
    assert "" + [s[0]] == "a" && "a" + [s[1]] == "a\\";
    assert ScanFrom(AsWritten, s, 0, [], "") == ScanFrom(AsWritten, s, 2, [], "a\\");
    assert Collected(Scanned([], "a|b\\|c", 7)) == ["a|b\\|c"];
  }

  /** The same value read as intended: the value the client wrote. */
  lemma SecondEscapeReadBack()
    ensures RightOperandOf(Intended, "a\\|b\\|c", "name", Equals, FieldQuery) == Ok(RightOperand(["a|b|c"], 7))
  {
    var s := "a\\|b\\|c";
    assert EscapeValue("c") == "c";
    assert EscapeValue("|c") == "\\|c";
    assert EscapeValue("b|c") == "b\\|c";
    assert EscapeValue("|b|c") == "\\|b\\|c";
    assert EscapeValue("a|b|c") == s;
    EscapedValueReadsBack(Intended, "a|b|c", "name", Equals, FieldQuery);
  }

  /**
   * A list whose second value starts with an escaped separator: the
   * source's slice reaches past the end of the buffer, while read as
   * intended both values come back.
   */
  lemma LaterEscapePanicsAsWritten()
    ensures RightOperandOf(AsWritten, "[a||\\|b]", "name", In, FieldQuery) == Panic
    ensures RightOperandOf(Intended, "[a||\\|b]", "name", In, FieldQuery) == Ok(RightOperand(["a", "|b"], 8))
  {
    var s := "[a||\\|b]";
    assert ScanFrom(AsWritten, s, 3, ["[a"], "") == ScanFrom(AsWritten, s, 4, ["[a"], "");
    assert ScanFrom(AsWritten, s, 2, [], "[a") == ScanFrom(AsWritten, s, 3, ["[a"], "");
    assert ScanFrom(AsWritten, s, 0, [], "") == ScanFrom(AsWritten, s, 2, [], "[a");
    var ws := ["a", "|b"];
    assert EscapeValue("b") == "b";
    assert EscapeValue("|b") == "\\|b";
    assert EscapeValue("a") == "a";
    assert EscapeAll(ws) == ["a", "\\|b"];
    assert Join(EscapeAll(ws), [Separator, Separator]) == "a||\\|b";
    assert BracketList(ws) == s;
    assert forall k :: 0 <= k < |ws| ==> ListValue(ws[k]);
    BracketListReadsBack(Intended, ws, "name", In, FieldQuery);
  }

  /** A list written with single separators ends at the first one, before its `]`, and is refused. */
  lemma SingleSeparatorsRefused()
    ensures RightOperandOf(AsWritten, "[a|b|c]", "status", In, FieldQuery) == Err(MissingBrackets(In, FieldQuery, "status"))
  {
  }

  /** A list written without brackets is refused. */
  lemma BracketsRequired()
    ensures RightOperandOf(AsWritten, "a||b", "status", NotIn, LabelQuery) == Err(MissingBrackets(NotIn, LabelQuery, "status"))
  {
  }

  /** A lone `[` leaves an empty last element, whose last character the source reads. */
  lemma LoneBracketPanics()
    ensures RightOperandOf(AsWritten, "[", "status", In, FieldQuery) == Panic
  {
  }
}
