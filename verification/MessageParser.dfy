/** `app/message_parser.py`: splitting a PLC value into model, serial and table. */
module MessageParser {
  import opened Wrappers
  import opened Strings

  const SUPPORTED_TABLES: set<string> := {"T01", "T02", "T03"}

  datatype Parts = Parts(model: string, serial: string, table: string)

  datatype ParseError = MissingTable | NotCompact | ModelMissing | BadSerial

  datatype ParseResult = Parsed(parts: Parts) | Rejected(error: ParseError)

  /** Position of the last blank, where `rsplit(" ", maxsplit=1)` cuts. */
  function LastBlank(s: string): (i: nat)
    requires ' ' in s
    ensures i < |s| && s[i] == ' ' && forall j :: i < j < |s| ==> s[j] != ' '
  {
    if s[|s| - 1] == ' ' then |s| - 1
    else
      assert ' ' in s[..|s| - 1];
      LastBlank(s[..|s| - 1])
  }

  /** What `.+P\d{3}` matches; `.` is any character but a line feed. */
  predicate CompactModel(s: string) {
    && |s| >= 5
    && s[|s| - 4] == 'P' && AllDigits(s[|s| - 3..])
    && '\n' !in s
  }

  /** The pattern can match with the model ending at k. */
  predicate Admissible(s: string, k: nat) {
    k < |s| && CompactModel(s[..k]) && AllDigits(s[k..])
  }

  /** The greedy match: the largest admissible split at or before k. */
  function GreedySplit(s: string, k: nat): (split: Option<nat>)
    requires k <= |s|
    ensures split.Some? ==> split.value <= k && Admissible(s, split.value)
    ensures split.None? ==> forall j: nat :: j <= k ==> !Admissible(s, j)
  {
    if Admissible(s, k) then Some(k)
    else if k == 0 then None
    else GreedySplit(s, k - 1)
  }

  /** `_split_message_value`. */
  function SplitValue(raw: string): ParseResult {
    var value := Strip(raw);
    var table, body := LastThree(value), ButLastThree(value);
    if table !in SUPPORTED_TABLES then Rejected(MissingTable)
    else if ' ' in body then SplitSpaced(body, table)
    else SplitCompact(body, table)
  }

  /** `_split_spaced_payload`. */
  function SplitSpaced(body: string, table: string): ParseResult
    requires ' ' in body
  {
    var cut := LastBlank(body);
    Checked(Strip(body[..cut]), Strip(body[cut + 1..]), table)
  }

  /** `_split_compact_payload`. */
  function SplitCompact(body: string, table: string): ParseResult {
    match GreedySplit(body, |body|)
    case None => Rejected(NotCompact)
    case Some(k) => Checked(body[..k], body[k..], table)
  }

  function Checked(model: string, serial: string, table: string): ParseResult {
    if model == "" then Rejected(ModelMissing)
    else if serial == "" || !AllDigits(serial) then Rejected(BadSerial)
    else Parsed(Parts(model, serial, table))
  }

  function Spaced(p: Parts): string { p.model + " " + p.serial + p.table }

  function Compact(p: Parts): string { p.model + p.serial + p.table }

  /** What every accepted value yields, and what the spaced form can carry. */
  predicate Clean(p: Parts) {
    && p.model != "" && Trim(p.model)
    && p.serial != "" && AllDigits(p.serial)
    && p.table in {"T01", "T02", "T03"}
  }

  lemma AdmissibleChars(s: string, k: nat, i: nat)
    requires Admissible(s, k) && k - 3 <= i < |s|
    ensures IsDigit(s[i]) && s[k - 4] == 'P'
  {
    assert s[..k][k - 4] == s[k - 4];
    if i >= k {
      assert s[k..][i - k] == s[i];
    } else {
      assert s[..k][k - 3..][i - (k - 3)] == s[i];
    }
  }

  /** A compact value has at most one admissible split, so greedy matching cannot change the answer. */
  lemma AdmissibleSplitIsUnique(s: string, j: nat, k: nat)
    requires Admissible(s, j) && Admissible(s, k)
    ensures j == k
  {
    AdmissibleChars(s, j, j);
    AdmissibleChars(s, k, k);
    if j < k {
      AdmissibleChars(s, j, k - 4);
    } else if k < j {
      AdmissibleChars(s, k, j - 4);
    }
  }

  lemma SpacedRoundTrip(p: Parts)
    requires Clean(p)
    ensures SplitValue(Spaced(p)) == Parsed(p)
  {
    var value := Spaced(p);
    var body := p.model + " " + p.serial;
    assert |p.table| == 3 && value == body + p.table;
    assert value[0] == p.model[0] && value[|value| - 1] == p.table[2] && IsDigit(p.table[2]);
    StripOfTrim(value);
    assert LastThree(value) == p.table && ButLastThree(value) == body;
    assert body[|p.model|] == ' ';
    assert forall j :: |p.model| < j < |body| ==> IsDigit(body[j]);
    assert LastBlank(body) == |p.model|;
    assert body[..|p.model|] == p.model && body[|p.model| + 1..] == p.serial;
    StripOfTrim(p.model);
    StripOfTrim(p.serial);
  }

  lemma CompactRoundTrip(p: Parts)
    requires Clean(p) && CompactModel(p.model) && ' ' !in p.model
    ensures SplitValue(Compact(p)) == Parsed(p)
  {
    var value := Compact(p);
    var body := p.model + p.serial;
    assert |p.table| == 3 && value == body + p.table;
    assert value[0] == p.model[0] && value[|value| - 1] == p.table[2] && IsDigit(p.table[2]);
    StripOfTrim(value);
    assert LastThree(value) == p.table && ButLastThree(value) == body;
    assert body[..|p.model|] == p.model && body[|p.model|..] == p.serial;
    assert Admissible(body, |p.model|);
    AdmissibleSplitIsUnique(body, |p.model|, GreedySplit(body, |body|).value);
  }

  /** The form without a blank carries only models that end in P and three digits and contain neither blank nor line feed. */
  predicate CompactClean(p: Parts) { Clean(p) && CompactModel(p.model) && ' ' !in p.model }

  lemma CompactBody(p: Parts)
    requires Clean(p)
    ensures LastThree(Strip(Compact(p))) == p.table && ButLastThree(Strip(Compact(p))) == p.model + p.serial
    ensures ' ' in p.model + p.serial <==> ' ' in p.model
  {
    var value := Compact(p);
    assert |p.table| == 3 && value == p.model + p.serial + p.table;
    assert value[0] == p.model[0] && value[|value| - 1] == p.table[2] && IsDigit(p.table[2]);
    StripOfTrim(value);
  }

  /** A blank in the model makes the parser cut the model itself. */
  lemma BlankCutsModel(p: Parts)
    requires Clean(p) && ' ' in p.model
    ensures SplitValue(Compact(p)) != Parsed(p)
  {
    CompactBody(p);
    var body := p.model + p.serial;
    var cut := LastBlank(body);
    assert cut < |p.model|;
    assert |Strip(body[..cut])| <= cut;
  }

  /** Parsing undoes compact printing for exactly these parts. */
  lemma {:induction false} CompactRoundTripIff(p: Parts)
    ensures SplitValue(Compact(p)) == Parsed(p) <==> CompactClean(p)
  {
    if CompactClean(p) {
      CompactRoundTrip(p);
    } else if SplitValue(Compact(p)) == Parsed(p) {
      AcceptedShape(Compact(p));
      CompactBody(p);
      if ' ' in p.model {
        BlankCutsModel(p);
      }
    }
  }

  /** And spaced printing for exactly the clean ones. */
  lemma SpacedRoundTripIff(p: Parts)
    ensures SplitValue(Spaced(p)) == Parsed(p) <==> Clean(p)
  {
    if Clean(p) {
      SpacedRoundTrip(p);
    } else if SplitValue(Spaced(p)) == Parsed(p) {
      AcceptedShape(Spaced(p));
    }
  }

  /** The separated form: whitespace with at least one blank between model and serial, and whitespace without any between
      serial and table. */
  ghost predicate SeparatedBy(value: string, p: Parts, gap: string, tail: string) {
    && Blank(gap) && ' ' in gap && Blank(tail) && ' ' !in tail
    && value == p.model + gap + p.serial + tail + p.table
  }

  ghost predicate Separated(value: string, p: Parts) { exists gap, tail :: SeparatedBy(value, p, gap, tail) }

  lemma ValueOfBody(raw: string)
    requires LastThree(Strip(raw)) in SUPPORTED_TABLES
    ensures |LastThree(Strip(raw))| == 3 && Strip(raw) == ButLastThree(Strip(raw)) + LastThree(Strip(raw))
    ensures ButLastThree(Strip(raw)) == "" || !IsSpace(ButLastThree(Strip(raw))[0])
  {
    var _, _ := StripDecomposes(raw);
  }

  lemma StripAtStart(s: string) returns (after: string)
    requires s == "" || !IsSpace(s[0])
    ensures Trim(Strip(s)) && Blank(after) && s == Strip(s) + after
  {
    assert Leads(s, 0);
    after := s[|Strip(s)|..];
  }

  lemma Regroup(m: string, b: string, c: string, r: string, d: string)
    ensures (m + b) + " " + (c + r + d) == m + (b + " " + c) + r + d
  {
  }

  lemma NoBlankAtEnd(s: string, c: string, r: string, d: string)
    requires s == c + r + d && ' ' !in s
    ensures ' ' !in d
  {
    assert forall j :: 0 <= j < |d| ==> d[j] == s[|c| + |r| + j];
  }

  lemma SpacedShape(left: string, right: string) returns (gap: string, tail: string)
    requires left == "" || !IsSpace(left[0])
    requires ' ' !in right
    ensures Trim(Strip(left)) && Blank(gap) && ' ' in gap && Blank(tail) && ' ' !in tail
    ensures left + " " + right == Strip(left) + gap + Strip(right) + tail
  {
    var b := StripAtStart(left);
    var c, d := StripDecomposes(right);
    gap, tail := b + " " + c, d;
    NoBlankAtEnd(right, c, Strip(right), d);
    assert gap[|b|] == ' ';
    Regroup(Strip(left), b, c, Strip(right), d);
  }

  lemma CompactShape(body: string, k: nat)
    requires Admissible(body, k) && !IsSpace(body[0])
    ensures Trim(body[..k]) && body == body[..k] + body[k..]
  {
    AdmissibleChars(body, k, k - 1);
  }

  lemma AfterLastBlank(body: string)
    requires ' ' in body
    ensures ' ' !in body[LastBlank(body) + 1..]
  {
    var after := body[LastBlank(body) + 1..];
    assert forall j :: 0 <= j < |after| ==> after[j] == body[LastBlank(body) + 1 + j];
  }

  lemma SpacedPartsShape(body: string, p: Parts)
    requires ' ' in body && !IsSpace(body[0]) && p.table in SUPPORTED_TABLES
    requires SplitSpaced(body, p.table) == Parsed(p)
    ensures Clean(p) && Separated(body + p.table, p)
  {
    var cut := LastBlank(body);
    AfterLastBlank(body);
    var gap, tail := SpacedShape(body[..cut], body[cut + 1..]);
    assert body == body[..cut] + " " + body[cut + 1..];
    assert SeparatedBy(body + p.table, p, gap, tail);
  }

  lemma CompactPartsShape(body: string, p: Parts)
    requires ' ' !in body && (body == "" || !IsSpace(body[0])) && p.table in SUPPORTED_TABLES
    requires SplitCompact(body, p.table) == Parsed(p)
    ensures CompactClean(p) && body + p.table == Compact(p)
  {
    CompactShape(body, |p.model|);
  }

  /** Every accepted value is its parts in order, separated, or joined where the model shows its end. */
  lemma AcceptedShape(raw: string)
    requires SplitValue(raw).Parsed?
    ensures var p := SplitValue(raw).parts;
      Clean(p) && (Separated(Strip(raw), p) || (CompactClean(p) && Strip(raw) == Compact(p)))
  {
    var p, body := SplitValue(raw).parts, ButLastThree(Strip(raw));
    ValueOfBody(raw);
    if ' ' in body {
      SpacedPartsShape(body, p);
    } else {
      CompactPartsShape(body, p);
    }
  }

  lemma BlankCuts(left: string, right: string)
    requires ' ' !in right
    ensures var body := left + " " + right;
      && ' ' in body && LastBlank(body) == |left| && body[..|left|] == left && body[|left| + 1..] == right
  {
    var body := left + " " + right;
    assert body[|left|] == ' ';
    assert forall j :: |left| < j < |body| ==> body[j] == right[j - |left| - 1];
  }

  lemma NoBlankInside(c: string, r: string, d: string)
    requires ' ' !in c && AllDigits(r) && ' ' !in d
    ensures ' ' !in c + r + d
  {
  }

  lemma GapCuts(gap: string) returns (b: string, c: string)
    requires Blank(gap) && ' ' in gap
    ensures Blank(b) && Blank(c) && ' ' !in c && gap == b + " " + c
  {
    var g := LastBlank(gap);
    AfterLastBlank(gap);
    b, c := gap[..g], gap[g + 1..];
  }

  lemma SeparatedSplits(left: string, right: string, p: Parts, b: string, c: string, tail: string)
    requires Clean(p) && Blank(b) && Blank(c) && Blank(tail)
    requires left == p.model + b && right == c + p.serial + tail && ' ' !in right
    ensures ' ' in left + " " + right && SplitSpaced(left + " " + right, p.table) == Parsed(p)
  {
    BlankCuts(left, right);
    StripOfTail(p.model, b);
    StripOfPadded(c, p.serial, tail);
  }

  lemma BodyOfValue(body: string, table: string)
    requires table in SUPPORTED_TABLES
    ensures LastThree(body + table) == table && ButLastThree(body + table) == body
  {
    assert |table| == 3;
  }

  lemma SeparatedParses(raw: string, p: Parts)
    requires Clean(p) && Separated(Strip(raw), p)
    ensures SplitValue(raw) == Parsed(p)
  {
    var gap, tail :| SeparatedBy(Strip(raw), p, gap, tail);
    var b, c := GapCuts(gap);
    Regroup(p.model, b, c, p.serial, tail);
    NoBlankInside(c, p.serial, tail);
    SeparatedSplits(p.model + b, c + p.serial + tail, p, b, c, tail);
    BodyOfValue((p.model + b) + " " + (c + p.serial + tail), p.table);
  }

  lemma SplitIgnoresPadding(raw: string, value: string)
    requires Strip(raw) == Strip(value)
    ensures SplitValue(raw) == SplitValue(value)
  {
  }

  /** Exactly which values are accepted, and as what: up to surrounding whitespace, the separated form of clean parts, or the
      joined form of parts whose model shows where it ends. */
  lemma {:induction false} AcceptedExactly(raw: string, p: Parts)
    ensures SplitValue(raw) == Parsed(p)
            <==> (Clean(p) && Separated(Strip(raw), p)) || (CompactClean(p) && Strip(raw) == Compact(p))
  {
    if SplitValue(raw) == Parsed(p) {
      AcceptedShape(raw);
    }
    if Clean(p) && Separated(Strip(raw), p) {
      SeparatedParses(raw, p);
    }
    if CompactClean(p) && Strip(raw) == Compact(p) {
      CompactBody(p);
      CompactRoundTrip(p);
      assert Strip(Compact(p)) == Compact(p) by {
        CompactIsTrim(p);
        StripOfTrim(Compact(p));
      }
      SplitIgnoresPadding(raw, Compact(p));
    }
  }

  lemma BodyStartsTheModel(body: string)
    requires ' ' in body && !IsSpace(body[0])
    ensures Strip(body[..LastBlank(body)]) != ""
  {
    var left := body[..LastBlank(body)];
    var before, after := StripDecomposes(left);
    assert left[0] == body[0];
  }

  /** Why any other value is rejected: its table is not supported; or what precedes the table has no blank and does not split;
      or it has one, and what follows the last is no number. A missing model is never the reason. */
  lemma RejectedExactly(raw: string)
    ensures var table, body, result := LastThree(Strip(raw)), ButLastThree(Strip(raw)), SplitValue(raw);
      && (result == Rejected(MissingTable) <==> table !in {"T01", "T02", "T03"})
      && (result == Rejected(NotCompact) <==>
            table in {"T01", "T02", "T03"} && ' ' !in body && forall k: nat :: !Admissible(body, k))
      && (result == Rejected(BadSerial) <==>
            table in {"T01", "T02", "T03"} && ' ' in body
            && (Strip(body[LastBlank(body) + 1..]) == "" || !AllDigits(Strip(body[LastBlank(body) + 1..]))))
      && result != Rejected(ModelMissing)
  {
    var body := ButLastThree(Strip(raw));
    if LastThree(Strip(raw)) in SUPPORTED_TABLES {
      ValueOfBody(raw);
      if ' ' in body {
        BodyStartsTheModel(body);
      }
    }
  }

  lemma CompactIsTrim(p: Parts)
    requires Clean(p)
    ensures Trim(Compact(p))
  {
    var value := Compact(p);
    assert |p.table| == 3 && value[0] == p.model[0] && value[|value| - 1] == p.table[2] && IsDigit(p.table[2]);
  }

  /** Re-printing what was parsed and parsing again changes nothing. */
  lemma {:induction false} ParsedValuesAreCanonical(raw: string)
    requires SplitValue(raw).Parsed?
    ensures SplitValue(Spaced(SplitValue(raw).parts)) == SplitValue(raw)
  {
    AcceptedShape(raw);
    SpacedRoundTrip(SplitValue(raw).parts);
  }

  /** Reception trims the value before looking at its table, submission does not: of the values that
      are accepted and queued, exactly those without trailing whitespace pass the later check. */
  lemma AcceptedValueIsSubmittable(raw: string)
    requires SplitValue(raw).Parsed?
    ensures LastThree(raw) in SUPPORTED_TABLES <==> !IsSpace(raw[|raw| - 1])
  {
    var before, after := StripDecomposes(raw);
    var value := Strip(raw);
    if after == "" {
      assert raw == before + value;
      assert LastThree(raw) == LastThree(value);
      assert IsDigit(LastThree(value)[2]) && raw[|raw| - 1] == LastThree(value)[2];
    } else {
      assert raw[|raw| - 1] == after[|after| - 1];
      assert LastThree(raw)[2] == raw[|raw| - 1];
    }
  }
}
