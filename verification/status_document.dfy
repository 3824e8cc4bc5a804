/**
 * The status file's fixed layout. Both documents the core itself writes, the
 * default one (`ensure_update_json_exists`) and the simulator's
 * (`simulate_update_cycle`), put the three fields in this order, on lines of
 * their own, indented by four spaces:
 *
 *     {
 *         "progress": <token>,
 *         "status": "<text>",
 *         "step": "<text>"
 *     }
 */
module StatusDocument {
  import opened Wrappers
  import opened JsonField

  const Open: string := "{\n    "
  const ProgressKey: string := "\"progress\""
  const Colon: string := ": "
  const Separator: string := ",\n    "
  const StatusKey: string := "\"status\""
  const Quote: string := "\""
  const StepKey: string := "\"step\""
  const Close: string := "\n}\n"

  /** The document holding the three fields, in the layout above. */
  function Document(progressText: string, status: string, step: string): (d: string)
    ensures |d| == 55 + |progressText| + |status| + |step|
  {
    Open + ProgressKey + Colon + progressText + Separator
      + StatusKey + Colon + Quote + status + Quote + Separator
      + StepKey + Colon + Quote + step + Quote + Close
  }

  /** What the bare `progress` token may hold for the layout to be read back. */
  predicate PlainToken(s: string)
  {
    s != [] && '"' !in s && '\0' !in s && forall i :: 0 <= i < |s| ==> !EndsToken(s[i])
  }

  /** What a string value may hold for the layout to be read back: no quote, no NUL. */
  predicate PlainText(s: string)
  {
    '"' !in s && '\0' !in s
  }

  /** Where the pieces of the progress line sit. */
  lemma LayoutOfProgressLine(progressText: string, status: string, step: string)
    ensures var t := Document(progressText, status, step);
      var m1 := 18 + |progressText|;
      m1 + 6 <= |t| && t[..6] == Open && t[6..16] == ProgressKey && t[16..18] == Colon &&
      t[18..m1] == progressText && t[m1..m1 + 6] == Separator
  {
  }

  /** Where the pieces of the status line sit. */
  lemma LayoutOfStatusLine(progressText: string, status: string, step: string)
    ensures var t := Document(progressText, status, step);
      var m1 := 18 + |progressText|;
      m1 + 17 + |status| < |t| &&
      t[m1 + 6..m1 + 14] == StatusKey && t[m1 + 14..m1 + 16] == Colon &&
      t[m1 + 16] == '"' && t[m1 + 17..m1 + 17 + |status|] == status &&
      t[m1 + 17 + |status|] == '"'
  {
  }

  /** Where each piece of the layout up to the status value sits. */
  lemma LayoutToStatus(progressText: string, status: string, step: string)
    requires '"' !in progressText
    ensures var t := Document(progressText, status, step);
      var m1 := 18 + |progressText|;
      ProgressLine(t, m1) && t[18..m1] == progressText &&
      t[m1 + 6..m1 + 14] == StatusKey && t[m1 + 14..m1 + 16] == Colon &&
      t[m1 + 16] == '"' && t[m1 + 17..m1 + 17 + |status|] == status &&
      m1 + 17 + |status| < |t| && t[m1 + 17 + |status|] == '"'
  {
    LayoutOfProgressLine(progressText, status, step);
    LayoutOfStatusLine(progressText, status, step);
  }

  /** Where each piece of the layout after the status value sits. */
  lemma LayoutFromStatus(progressText: string, status: string, step: string)
    ensures var t := Document(progressText, status, step);
      var m2 := 35 + |progressText| + |status|;
      var m3 := m2 + 16 + |step|;
      m3 < |t| && t[m2 + 1..m2 + 7] == Separator && t[m2 + 7..m2 + 13] == StepKey &&
      t[m2 + 13..m2 + 15] == Colon && t[m2 + 15] == '"' &&
      t[m2 + 16..m3] == step && t[m3] == '"'
  {
  }

  lemma DocumentWithoutNul(progressText: string, status: string, step: string)
    requires PlainToken(progressText) && PlainText(status) && PlainText(step)
    ensures '\0' !in Document(progressText, status, step)
  {
  }

  /** No quoted key starts inside a stretch of text without quotes. */
  lemma QuoteFree(t: string, sk: string, o: nat, x: string)
    requires o + |x| <= |t| && t[o..o + |x|] == x && '"' !in x
    requires sk != [] && sk[0] == '"'
    ensures forall j :: o <= j < o + |x| ==> !OccursAt(t, sk, j)
  {
    forall j | o <= j < o + |x| ensures !OccursAt(t, sk, j) {
      assert t[j] == x[j - o];
      MismatchAt(t, sk, j, 0);
    }
  }

  /** No quoted key starts where there is no quote. */
  lemma NoKeyIn(t: string, sk: string, lo: nat, hi: nat)
    requires hi <= |t| && sk != [] && sk[0] == '"'
    requires forall j :: lo <= j < hi ==> t[j] != '"'
    ensures forall j :: lo <= j < hi ==> !OccursAt(t, sk, j)
  {
    forall j | lo <= j < hi ensures !OccursAt(t, sk, j) {
      MismatchAt(t, sk, j, 0);
    }
  }

  /** A stretch of text that is `x` holds no `c` when `x` does not. */
  lemma CharFree(t: string, c: char, o: nat, x: string)
    requires o + |x| <= |t| && t[o..o + |x|] == x && c !in x
    ensures forall j :: o <= j < o + |x| ==> t[j] != c
  {
    forall j | o <= j < o + |x| ensures t[j] != c {
      assert t[j] == x[j - o];
    }
  }

  /** The text before the `status` key, up to and including `"progress": <token>,`. */
  ghost predicate ProgressLine(t: string, m1: nat)
  {
    18 <= m1 && m1 + 6 <= |t| && t[..6] == Open && t[6..16] == ProgressKey &&
    t[16..18] == Colon && '"' !in t[18..m1] && t[m1..m1 + 6] == Separator
  }

  /** No key that begins with `"s` starts before the `status` line. */
  lemma NoSKeyBefore(t: string, sk: string, m1: nat)
    requires ProgressLine(t, m1)
    requires |sk| >= 2 && sk[..2] == "\"s"
    ensures forall j :: 0 <= j < m1 + 6 ==> !OccursAt(t, sk, j)
  {
    QuoteFree(t, sk, 0, Open);
    assert t[7] == ProgressKey[1] && t[16] == Colon[0];
    MismatchAt(t, sk, 6, 1);
    assert t[7..15] == ProgressKey[1..9];
    QuoteFree(t, sk, 7, ProgressKey[1..9]);
    MismatchAt(t, sk, 15, 1);
    QuoteFree(t, sk, 16, Colon);
    QuoteFree(t, sk, 18, t[18..m1]);
    QuoteFree(t, sk, m1, Separator);
  }

  /** The extractor's search key for `progress` is the layout's key. */
  lemma ProgressIsSearchKey()
    ensures SearchKey("progress") == ProgressKey
  {
  }

  /** Where the extractor finds the progress token in the layout. */
  lemma DocumentProgressSpan(progressText: string, status: string, step: string) returns (span: Span)
    requires PlainToken(progressText) && PlainText(status) && PlainText(step)
    ensures var t := Document(progressText, status, step);
      ValueSpan(t, ProgressKey) == Some(span) && '\0' !in t &&
      span.start <= span.stop <= |t| && t[span.start..span.stop] == progressText
  {
    var t := Document(progressText, status, step);
    var m1 := 18 + |progressText|;
    span := Span(18, m1);
    LayoutToStatus(progressText, status, step);
    DocumentWithoutNul(progressText, status, step);
    QuoteFree(t, ProgressKey, 0, Open);
    assert t[16] == Colon[0] && t[17] == Colon[1] && t[m1] == Separator[0];
    forall j | 18 <= j < m1 ensures !EndsToken(t[j]) && t[j] != '"' {
      assert t[j] == progressText[j - 18];
    }
    BareSpan(t, ProgressKey, 6, 16, 18, m1);
  }

  /** The `progress` field of the layout is its token. */
  lemma ExtractProgress(progressText: string, status: string, step: string, maxLen: nat)
    requires maxLen >= 1
    requires PlainToken(progressText) && PlainText(status) && PlainText(step)
    ensures ParseJsonValue(Document(progressText, status, step), "progress", maxLen)
         == Some(Truncate(progressText, maxLen))
  {
    var span := DocumentProgressSpan(progressText, status, step);
    ProgressIsSearchKey();
    ParseFromSpan(Document(progressText, status, step), "progress", maxLen, ProgressKey, span, progressText);
  }

  /** The `status` line: key, colon and blank, then a quoted text without quotes. */
  ghost predicate StatusLineAt(t: string, m1: nat, m2: nat)
  {
    '\0' !in t && ProgressLine(t, m1) &&
    m1 + 17 <= m2 < |t| && t[m1 + 6..m1 + 14] == StatusKey &&
    t[m1 + 14..m1 + 16] == Colon && t[m1 + 16] == '"' &&
    '"' !in t[m1 + 17..m2] && t[m2] == '"'
  }

  /** The quoted value after the key `"status"` that follows the progress line. */
  lemma StatusSpan(t: string, m1: nat, m2: nat)
    requires StatusLineAt(t, m1, m2)
    ensures ValueSpan(t, StatusKey) == Some(Span(m1 + 17, m2))
  {
    NoSKeyBefore(t, StatusKey, m1);
    assert t[m1 + 14] == Colon[0] && t[m1 + 15] == Colon[1];
    CharFree(t, '"', m1 + 17, t[m1 + 17..m2]);
    QuotedSpan(t, StatusKey, m1 + 6, m1 + 14, m1 + 16, m2);
  }

  /** The layout has its status line where the status value is. */
  lemma DocumentStatusLine(progressText: string, status: string, step: string)
    requires PlainToken(progressText) && PlainText(status) && PlainText(step)
    ensures var m1 := 18 + |progressText|;
      StatusLineAt(Document(progressText, status, step), m1, m1 + 17 + |status|)
    ensures Document(progressText, status, step)[35 + |progressText|..35 + |progressText| + |status|] == status
  {
    LayoutToStatus(progressText, status, step);
    DocumentWithoutNul(progressText, status, step);
  }

  /** The extractor's search key for `status` is the layout's key. */
  lemma StatusIsSearchKey()
    ensures SearchKey("status") == StatusKey
  {
  }

  /** Where the extractor finds the status value in the layout. */
  lemma DocumentStatusSpan(progressText: string, status: string, step: string) returns (span: Span)
    requires PlainToken(progressText) && PlainText(status) && PlainText(step)
    ensures var t := Document(progressText, status, step);
      ValueSpan(t, StatusKey) == Some(span) && '\0' !in t &&
      span.start <= span.stop <= |t| && t[span.start..span.stop] == status
  {
    span := Span(35 + |progressText|, 35 + |progressText| + |status|);
    DocumentStatusLine(progressText, status, step);
    StatusSpan(Document(progressText, status, step), 18 + |progressText|, span.stop);
  }

  /** The `status` field of the layout is its string. */
  lemma ExtractStatus(progressText: string, status: string, step: string, maxLen: nat)
    requires maxLen >= 1
    requires PlainToken(progressText) && PlainText(status) && PlainText(step)
    ensures ParseJsonValue(Document(progressText, status, step), "status", maxLen)
         == Some(Truncate(status, maxLen))
  {
    var span := DocumentStatusSpan(progressText, status, step);
    StatusIsSearchKey();
    ParseFromSpan(Document(progressText, status, step), "status", maxLen, StatusKey, span, status);
  }

  /** A quoted status other than `step` does not read as the key `"step"`. */
  lemma StatusValueIsNotStepKey(t: string, v: nat, e: nat)
    requires 1 <= v <= e < |t| && t[v - 1] == '"' && t[e] == '"'
    requires '"' !in t[v..e] && t[v..e] != "step"
    ensures !OccursAt(t, StepKey, v - 1)
  {
    var b := e - v;
    if b >= 5 {
      assert t[v + 4] == t[v..e][4];
      MismatchAt(t, StepKey, v - 1, 5);
    } else if b < 4 {
      MismatchAt(t, StepKey, v - 1, b + 1);
    } else {
      var d :| 0 <= d < 4 && t[v..e][d] != "step"[d];
      assert t[v + d] == t[v..e][d];
      MismatchAt(t, StepKey, v - 1, d + 1);
    }
  }

  /** The `step` line after the status line: key, colon and blank, then a quoted text. */
  ghost predicate StepLineAt(t: string, m1: nat, m2: nat, m3: nat)
  {
    StatusLineAt(t, m1, m2) &&
    m2 + 16 <= m3 < |t| && t[m2 + 1..m2 + 7] == Separator &&
    t[m2 + 7..m2 + 13] == StepKey && t[m2 + 13..m2 + 15] == Colon &&
    t[m2 + 15] == '"' && '"' !in t[m2 + 16..m3] && t[m3] == '"'
  }

  /** No `"step"` occurs in the `"status": ` part of the status line. */
  lemma NoStepKeyInStatusKey(t: string, m1: nat, m2: nat)
    requires StatusLineAt(t, m1, m2)
    ensures forall j :: m1 + 6 <= j < m1 + 16 ==> !OccursAt(t, StepKey, j)
  {
    assert t[m1 + 9] == StatusKey[3];
    MismatchAt(t, StepKey, m1 + 6, 3);
    forall j | m1 + 7 <= j < m1 + 13 ensures t[j] != '"' {
      assert t[j] == StatusKey[j - m1 - 6];
    }
    NoKeyIn(t, StepKey, m1 + 7, m1 + 13);
    assert t[m1 + 14] == Colon[0];
    MismatchAt(t, StepKey, m1 + 13, 1);
    QuoteFree(t, StepKey, m1 + 14, Colon);
  }

  /** No `"step"` occurs from the status value up to the step key. */
  lemma NoStepKeyInStatusValue(t: string, m1: nat, m2: nat)
    requires StatusLineAt(t, m1, m2) && t[m1 + 17..m2] != "step"
    requires m2 + 7 <= |t| && t[m2 + 1..m2 + 7] == Separator
    ensures forall j :: m1 + 16 <= j < m2 + 7 ==> !OccursAt(t, StepKey, j)
  {
    StatusValueIsNotStepKey(t, m1 + 17, m2);
    QuoteFree(t, StepKey, m1 + 17, t[m1 + 17..m2]);
    assert t[m2 + 1] == Separator[0];
    MismatchAt(t, StepKey, m2, 1);
    QuoteFree(t, StepKey, m2 + 1, Separator);
  }

  /** No `"step"` occurs before the step line. */
  lemma NoStepKeyBefore(t: string, m1: nat, m2: nat, m3: nat)
    requires StepLineAt(t, m1, m2, m3) && t[m1 + 17..m2] != "step"
    ensures forall j :: 0 <= j < m2 + 7 ==> !OccursAt(t, StepKey, j)
  {
    NoSKeyBefore(t, StepKey, m1);
    NoStepKeyInStatusKey(t, m1, m2);
    NoStepKeyInStatusValue(t, m1, m2);
  }

  /** The quoted value after the key `"step"`. */
  lemma StepSpan(t: string, m1: nat, m2: nat, m3: nat)
    requires StepLineAt(t, m1, m2, m3) && t[m1 + 17..m2] != "step"
    ensures ValueSpan(t, StepKey) == Some(Span(m2 + 16, m3))
  {
    NoStepKeyBefore(t, m1, m2, m3);
    assert t[m2 + 13] == Colon[0] && t[m2 + 14] == Colon[1];
    CharFree(t, '"', m2 + 16, t[m2 + 16..m3]);
    QuotedSpan(t, StepKey, m2 + 7, m2 + 13, m2 + 15, m3);
  }

  /**
   * When the status text is itself `step`, the key `"step"` first occurs as
   * the quoted status value; the next ':' is still the step line's, so the
   * value found is the step text all the same.
   */
  lemma StepSpanAfterStepStatus(t: string, m1: nat, m2: nat, m3: nat)
    requires StepLineAt(t, m1, m2, m3) && t[m1 + 17..m2] == "step"
    ensures ValueSpan(t, StepKey) == Some(Span(m2 + 16, m3))
  {
    NoSKeyBefore(t, StepKey, m1);
    NoStepKeyInStatusKey(t, m1, m2);
    assert t[m1 + 16..m1 + 22] == StepKey by {
      forall i | 1 <= i < 5 ensures t[m1 + 16 + i] == StepKey[i] {
        assert t[m1 + 16 + i] == t[m1 + 17..m2][i - 1];
      }
    }
    CharFree(t, ':', m2 + 1, Separator);
    CharFree(t, ':', m2 + 7, StepKey);
    assert t[m2 + 13] == Colon[0] && t[m2 + 14] == Colon[1];
    CharFree(t, '"', m2 + 16, t[m2 + 16..m3]);
    QuotedSpan(t, StepKey, m1 + 16, m2 + 13, m2 + 15, m3);
  }

  /** The layout has a step line after the status line, and the step value is in it. */
  lemma DocumentStepLine(progressText: string, status: string, step: string)
    returns (m1: nat, m2: nat, m3: nat)
    requires PlainToken(progressText) && PlainText(status) && PlainText(step)
    ensures var t := Document(progressText, status, step);
      StepLineAt(t, m1, m2, m3) && t[m1 + 17..m2] == status && t[m2 + 16..m3] == step
  {
    m1 := 18 + |progressText|;
    m2 := 35 + |progressText| + |status|;
    m3 := m2 + 16 + |step|;
    DocumentStatusLine(progressText, status, step);
    LayoutFromStatus(progressText, status, step);
  }

  /** The extractor's search key for `step` is the layout's key. */
  lemma StepIsSearchKey()
    ensures SearchKey("step") == StepKey
  {
  }

  /** The `step` field of the layout is its string, whatever the status text. */
  lemma ExtractStep(progressText: string, status: string, step: string, maxLen: nat)
    requires maxLen >= 1
    requires PlainToken(progressText) && PlainText(status) && PlainText(step)
    ensures ParseJsonValue(Document(progressText, status, step), "step", maxLen)
         == Some(Truncate(step, maxLen))
  {
    var t := Document(progressText, status, step);
    var m1, m2, m3 := DocumentStepLine(progressText, status, step);
    if status == "step" {
      StepSpanAfterStepStatus(t, m1, m2, m3);
    } else {
      StepSpan(t, m1, m2, m3);
    }
    StepIsSearchKey();
    ParseFromSpan(t, "step", maxLen, StepKey, Span(m2 + 16, m3), step);
  }
}
