/**
 * The text protocol between the programs: what the actuator's handler makes of
 * the dashboard's LED command, of its own feedback and of the sensor texts, and
 * what the earlier actuator build makes of the sensor texts.
 *
 * Absence of a pattern in a text built by concatenation is shown piece by
 * piece (`NoStartIn` on each literal piece, which the verifier evaluates, then
 * `NoStartConcat`), so that no property depends on evaluating a long text.
 */
module Protocol {
  import opened Wrappers
  import opened Strings
  import opened Mesh
  import opened Dashboard
  import A = ActuatorNode
  import S = SensorNode

  // ----- Composing facts about pieces -----

  lemma BoolTextClean(b: bool, p: string)
    requires NoStartIn("true", p) && NoStartIn("false", p)
    ensures NoStartIn(BoolText(b), p)
  {
  }

  lemma BoolTextLower(b: bool)
    ensures ToLower(BoolText(b)) == BoolText(b)
  {
    LiteralsLower();
  }

  lemma Clean3(a: string, b: string, c: string, p: string)
    requires NoStartIn(a, p) && NoStartIn(b, p) && NoStartIn(c, p)
    ensures NoStartIn(a + b + c, p)
  {
    NoStartConcat(a, b, p);
    NoStartConcat(a + b, c, p);
  }

  lemma Lower2(a: string, b: string)
    requires ToLower(a) == a && ToLower(b) == b
    ensures ToLower(a + b) == a + b
  {
    ToLowerConcat(a, b);
  }

  /** The literal pieces of the command and feedback texts hold no upper-case letter. */
  lemma LiteralsUpperFree()
    ensures NoUpperFrom("{", 0) && NoUpperFrom("}", 0) && NoUpperFrom(",", 0)
    ensures NoUpperFrom("true", 0) && NoUpperFrom("false", 0)
    ensures NoUpperFrom(LED1_HEAD, 0) && NoUpperFrom(LED2_HEAD, 0)
    ensures NoUpperFrom(FB_QUOTE, 0) && NoUpperFrom(FB1_TAIL, 0) && NoUpperFrom(FB2_TAIL, 0)
  {
  }

  /** Lowering leaves those pieces as they are. */
  lemma LiteralsLower()
    ensures ToLower("{") == "{" && ToLower("}") == "}" && ToLower(",") == ","
    ensures ToLower("true") == "true" && ToLower("false") == "false"
    ensures ToLower(LED1_HEAD) == LED1_HEAD && ToLower(LED2_HEAD) == LED2_HEAD
    ensures ToLower(FB_QUOTE) == FB_QUOTE && ToLower(FB1_TAIL) == FB1_TAIL && ToLower(FB2_TAIL) == FB2_TAIL
  {
    LiteralsUpperFree();
    LowerFixed("{");
    LowerFixed("}");
    LowerFixed(",");
    LowerFixed("true");
    LowerFixed("false");
    LowerFixed(LED1_HEAD);
    LowerFixed(LED2_HEAD);
    LowerFixed(FB_QUOTE);
    LowerFixed(FB1_TAIL);
    LowerFixed(FB2_TAIL);
  }

  // ----- The dashboard's LED command -----

  const LED1_HEAD: string := "{\"led1\":"
  const LED2_HEAD: string := "\"led2\":"

  /** The command text up to and including the comma, and the rest. */
  function FirstHalf(led1: bool): string
  {
    LED1_HEAD + BoolText(led1) + ","
  }

  function SecondHalf(led2: bool): string
  {
    LED2_HEAD + BoolText(led2) + "}"
  }

  lemma PacketHalves(led1: bool, led2: bool)
    ensures LedPacket(led1, led2) == FirstHalf(led1) + SecondHalf(led2)
  {
    assert ",\"led2\":" == "," + LED2_HEAD;
  }

  /** A pattern absent from every literal piece of the command is absent from it. */
  lemma PacketClean(led1: bool, led2: bool, p: string)
    requires NoStartIn(LED1_HEAD, p) && NoStartIn(LED2_HEAD, p) && NoStartIn(",", p) && NoStartIn("}", p)
    requires NoStartIn("true", p) && NoStartIn("false", p)
    ensures NoStartIn(LedPacket(led1, led2), p)
  {
    BoolTextClean(led1, p);
    BoolTextClean(led2, p);
    Clean3(LED1_HEAD, BoolText(led1), ",", p);
    Clean3(LED2_HEAD, BoolText(led2), "}", p);
    NoStartConcat(FirstHalf(led1), SecondHalf(led2), p);
    PacketHalves(led1, led2);
  }

  /** The command text is already in lower case. */
  lemma PacketLower(led1: bool, led2: bool)
    ensures ToLower(LedPacket(led1, led2)) == LedPacket(led1, led2)
  {
    LiteralsLower();
    BoolTextLower(led1);
    BoolTextLower(led2);
    Lower2(LED1_HEAD, BoolText(led1));
    Lower2(LED1_HEAD + BoolText(led1), ",");
    Lower2(LED2_HEAD, BoolText(led2));
    Lower2(LED2_HEAD + BoolText(led2), "}");
    Lower2(FirstHalf(led1), SecondHalf(led2));
    PacketHalves(led1, led2);
  }

  /** `"led1"` first occurs right after the brace. */
  lemma FirstKeyAt(led1: bool, led2: bool)
    ensures FirstOccurrence(LedPacket(led1, led2), A.KEY_LED1, 1)
  {
    var x, y := FirstHalf(led1), SecondHalf(led2);
    PacketHalves(led1, led2);
    assert OccursAt(LED1_HEAD, A.KEY_LED1, 1);
    OccursInConcat(LED1_HEAD, BoolText(led1), A.KEY_LED1, 1);
    OccursInConcat(LED1_HEAD + BoolText(led1), ",", A.KEY_LED1, 1);
    OccursInConcat(x, y, A.KEY_LED1, 1);
    OccursWithinLeft(x, y, A.KEY_LED1, 0);
    assert x[0] == '{';
  }

  /** `"led2"` first occurs right after the comma. */
  lemma SecondKeyAt(led1: bool, led2: bool)
    ensures FirstOccurrence(LedPacket(led1, led2), A.KEY_LED2, |FirstHalf(led1)|)
  {
    var x, y := FirstHalf(led1), SecondHalf(led2);
    PacketHalves(led1, led2);
    assert OccursAt(LED2_HEAD, A.KEY_LED2, 0);
    OccursInConcat(LED2_HEAD, BoolText(led2), A.KEY_LED2, 0);
    OccursInConcat(LED2_HEAD + BoolText(led2), "}", A.KEY_LED2, 0);
    OccursInConcat(x, y, A.KEY_LED2, 0);
    FirstHalfLacksSecondKey();
    BoolTextClean(led1, A.KEY_LED2);
    Clean3(LED1_HEAD, BoolText(led1), ",", A.KEY_LED2);
    NoStartFromConcat(x, y, A.KEY_LED2, 0);
  }

  lemma FirstHalfLacksSecondKey()
    ensures NoStartIn(LED1_HEAD, A.KEY_LED2) && NoStartIn(",", A.KEY_LED2)
    ensures NoStartIn("true", A.KEY_LED2) && NoStartIn("false", A.KEY_LED2)
  {
  }

  /** `"led1"` first occurs right after the brace; `"led2"` first occurs right after the comma. */
  lemma PacketKeys(led1: bool, led2: bool)
    ensures FirstOccurrence(LedPacket(led1, led2), A.KEY_LED1, 1)
    ensures FirstOccurrence(LedPacket(led1, led2), A.KEY_LED2, |FirstHalf(led1)|)
  {
    FirstKeyAt(led1, led2);
    SecondKeyAt(led1, led2);
  }

  /** `true` occurs from the first key on exactly when either LED is on. */
  lemma PacketTrueFromFirstKey(led1: bool, led2: bool)
    ensures IndexOf(LedPacket(led1, led2), A.TRUE_TEXT, 1) != -1 <==> led1 || led2
  {
    var x, y := FirstHalf(led1), SecondHalf(led2);
    var packet := LedPacket(led1, led2);
    PacketHalves(led1, led2);
    if led1 {
      OccursInConcat(LED1_HEAD, BoolText(led1), A.TRUE_TEXT, 0);
      OccursInConcat(LED1_HEAD + BoolText(led1), ",", A.TRUE_TEXT, 8);
      OccursInConcat(x, y, A.TRUE_TEXT, 8);
    } else if led2 {
      OccursInConcat(LED2_HEAD, BoolText(led2), A.TRUE_TEXT, 0);
      OccursInConcat(LED2_HEAD + BoolText(led2), "}", A.TRUE_TEXT, 7);
      OccursInConcat(x, y, A.TRUE_TEXT, 7);
    } else {
      Clean3(LED1_HEAD, "false", ",", A.TRUE_TEXT);
      Clean3(LED2_HEAD, "false", "}", A.TRUE_TEXT);
      NoStartConcat(x, y, A.TRUE_TEXT);
      NoStartAbsent(packet, A.TRUE_TEXT);
    }
  }

  /** `true` occurs from the second key on exactly when LED2 is on. */
  lemma PacketTrueFromSecondKey(led1: bool, led2: bool)
    ensures IndexOf(LedPacket(led1, led2), A.TRUE_TEXT, |FirstHalf(led1)|) != -1 <==> led2
  {
    var x, y := FirstHalf(led1), SecondHalf(led2);
    var packet := LedPacket(led1, led2);
    PacketHalves(led1, led2);
    if led2 {
      OccursInConcat(LED2_HEAD, BoolText(led2), A.TRUE_TEXT, 0);
      OccursInConcat(LED2_HEAD + BoolText(led2), "}", A.TRUE_TEXT, 7);
      OccursInConcat(x, y, A.TRUE_TEXT, 7);
    } else {
      Clean3(LED2_HEAD, "false", "}", A.TRUE_TEXT);
      NoStartAbsent(y, A.TRUE_TEXT);
      forall j | |x| <= j
        ensures !OccursAt(packet, A.TRUE_TEXT, j)
      {
        if OccursAt(packet, A.TRUE_TEXT, j) {
          OccursInSuffix(x, y, A.TRUE_TEXT, j);
        }
      }
    }
  }

  /** A known first occurrence is what `indexOf` returns. */
  lemma FirstIndex(s: string, p: string, i: int)
    requires |p| > 0 && FirstOccurrence(s, p, i)
    ensures IndexOf(s, p, 0) == i
  {
    IndexOfFinds(s, p);
  }

  /** A pattern that cannot start anywhere in `s` is not found by `indexOf`. */
  lemma NotFound(s: string, p: string)
    requires |p| > 0 && NoStartIn(s, p)
    ensures IndexOf(s, p, 0) == -1
  {
    NoStartAbsent(s, p);
    IndexOfFinds(s, p);
  }

  /** The command is a whole C string, shaped `{...}`, and already in lower case. */
  lemma PacketShape(led1: bool, led2: bool)
    ensures var packet := LedPacket(led1, led2);
            && CString(packet) == packet
            && StartsWith(packet, "{") && EndsWith(packet, "}")
            && ToLower(packet) == packet
  {
    PacketClean(led1, led2, "\0");
    CStringWhole(LedPacket(led1, led2));
    LedPacketLayout(led1, led2);
    PacketLower(led1, led2);
  }

  /** The command does not mention the feedback keys. */
  lemma PacketNoFeedback(led1: bool, led2: bool)
    ensures IndexOf(LedPacket(led1, led2), A.FEEDBACK_LED1, 0) == -1
    ensures IndexOf(LedPacket(led1, led2), A.FEEDBACK_LED2, 0) == -1
  {
    PacketClean(led1, led2, A.FEEDBACK_LED1);
    PacketClean(led1, led2, A.FEEDBACK_LED2);
    NotFound(LedPacket(led1, led2), A.FEEDBACK_LED1);
    NotFound(LedPacket(led1, led2), A.FEEDBACK_LED2);
  }

  /** Where the handler finds the two keys. */
  lemma PacketKeyIndexes(led1: bool, led2: bool)
    ensures IndexOf(LedPacket(led1, led2), A.KEY_LED1, 0) == 1
    ensures IndexOf(LedPacket(led1, led2), A.KEY_LED2, 0) == |FirstHalf(led1)|
  {
    PacketKeys(led1, led2);
    FirstIndex(LedPacket(led1, led2), A.KEY_LED1, 1);
    FirstIndex(LedPacket(led1, led2), A.KEY_LED2, |FirstHalf(led1)|);
  }

  /**
   * The dashboard's command passes the handler's shape, feedback and key checks,
   * and sets LED2 as asked but LED1 on whenever either box was ticked.
   */
  lemma DashboardCommandRoundTrip(led1: bool, led2: bool)
    ensures A.LedVerdict(Received(true, LedPacket(led1, led2))) == A.Command(Some(led1 || led2), Some(led2))
  {
    A.LedVerdictByIndexOf(Received(true, LedPacket(led1, led2)));
    PacketShape(led1, led2);
    PacketNoFeedback(led1, led2);
    PacketKeyIndexes(led1, led2);
    PacketTrueFromFirstKey(led1, led2);
    PacketTrueFromSecondKey(led1, led2);
  }

  /** Right after the first key the command holds `:true` exactly when LED1 was ticked. */
  lemma FirstValue(led1: bool, led2: bool)
    ensures OccursAt(LedPacket(led1, led2), A.COLON_TRUE, 1 + |A.KEY_LED1|) <==> led1
  {
    var x, y := FirstHalf(led1), SecondHalf(led2);
    PacketHalves(led1, led2);
    OccursWithinLeft(x, y, A.COLON_TRUE, 7);
    assert x[7..] == ":" + BoolText(led1) + ",";
    if !led1 {
      assert x[8] == 'f';
    }
  }

  /** Right after the second key the command holds `:true` exactly when LED2 was ticked. */
  lemma SecondValue(led1: bool, led2: bool)
    ensures OccursAt(LedPacket(led1, led2), A.COLON_TRUE, |FirstHalf(led1)| + |A.KEY_LED2|) <==> led2
  {
    var x, y := FirstHalf(led1), SecondHalf(led2);
    PacketHalves(led1, led2);
    assert y[6..] == ":" + BoolText(led2) + "}";
    if !led2 {
      assert y[7] == 'f';
    }
    OccursInConcat(x, y, A.COLON_TRUE, 6);
    if OccursAt(x + y, A.COLON_TRUE, |x| + 6) {
      OccursInSuffix(x, y, A.COLON_TRUE, |x| + 6);
    }
  }

  /** With the corrected LED branches the dashboard's command sets each LED as asked. */
  lemma CorrectedCommandRoundTrip(led1: bool, led2: bool)
    ensures A.CorrectedLedVerdict(Received(true, LedPacket(led1, led2))) == A.Command(Some(led1), Some(led2))
  {
    DashboardCommandRoundTrip(led1, led2);
    PacketShape(led1, led2);
    PacketKeys(led1, led2);
    FirstValue(led1, led2);
    SecondValue(led1, led2);
  }

  /**
   * The one combination the handler gets wrong: LED1 unticked, LED2 ticked.
   * `true` after `"led2"` is also after `"led1"`, so both LEDs go on.
   */
  lemma FalseTrueLightsBoth()
    ensures A.LedVerdict(Received(true, LedPacket(false, true))) == A.Command(Some(true), Some(true))
    ensures A.CorrectedLedVerdict(Received(true, LedPacket(false, true))) == A.Command(Some(false), Some(true))
  {
    DashboardCommandRoundTrip(false, true);
    CorrectedCommandRoundTrip(false, true);
  }

  /** Every other combination is read as sent. */
  lemma OtherCommandsAsSent(led1: bool, led2: bool)
    requires led1 || !led2
    ensures A.LedVerdict(Received(true, LedPacket(led1, led2))) == A.Command(Some(led1), Some(led2))
  {
    DashboardCommandRoundTrip(led1, led2);
  }

  // ----- The actuator's own feedback -----

  const FB_QUOTE: string := "\"feedback"
  const FB1_TAIL: string := "led1\":"
  const FB2_TAIL: string := "led2\":"

  /** The feedback text up to LED1's value, and from the comma to LED2's value. */
  function FeedbackFirst(led1: bool): string
  {
    "{" + FB_QUOTE + FB1_TAIL + BoolText(led1)
  }

  function FeedbackSecond(led2: bool): string
  {
    "," + FB_QUOTE + FB2_TAIL + BoolText(led2)
  }

  /** The feedback text without its closing brace. */
  function FeedbackBody(led1: bool, led2: bool): string
  {
    FeedbackFirst(led1) + FeedbackSecond(led2)
  }

  lemma FeedbackSplit(led1: bool, led2: bool)
    ensures A.FeedbackJson(led1, led2) == FeedbackBody(led1, led2) + "}"
  {
    var b1, b2 := BoolText(led1), BoolText(led2);
    assert "{" + "\"feedbackled1\":" == "{" + FB_QUOTE + FB1_TAIL;
    assert "," + "\"feedbackled2\":" == "," + FB_QUOTE + FB2_TAIL;
    calc {
      A.FeedbackJson(led1, led2);
      ("{" + "\"feedbackled1\":") + b1 + ("," + "\"feedbackled2\":") + b2 + "}";
      ("{" + FB_QUOTE + FB1_TAIL) + b1 + ("," + FB_QUOTE + FB2_TAIL) + b2 + "}";
      FeedbackBody(led1, led2) + "}";
    }
  }

  lemma Clean4(a: string, b: string, c: string, d: string, p: string)
    requires NoStartIn(a, p) && NoStartIn(b, p) && NoStartIn(c, p) && NoStartIn(d, p)
    ensures NoStartIn(a + b + c + d, p)
  {
    Clean3(a, b, c, p);
    NoStartConcat(a + b + c, d, p);
  }

  lemma FeedbackBodyClean(led1: bool, led2: bool, p: string)
    requires NoStartIn("{", p) && NoStartIn(",", p) && NoStartIn(FB_QUOTE, p)
    requires NoStartIn(FB1_TAIL, p) && NoStartIn(FB2_TAIL, p)
    requires NoStartIn("true", p) && NoStartIn("false", p)
    ensures NoStartIn(FeedbackBody(led1, led2), p)
  {
    BoolTextClean(led1, p);
    BoolTextClean(led2, p);
    Clean4("{", FB_QUOTE, FB1_TAIL, BoolText(led1), p);
    Clean4(",", FB_QUOTE, FB2_TAIL, BoolText(led2), p);
    NoStartConcat(FeedbackFirst(led1), FeedbackSecond(led2), p);
  }

  /** No piece of the feedback text holds a `}` or a NUL. */
  lemma FeedbackPiecesLackBrace()
    ensures NoStartIn("{", "}") && NoStartIn(",", "}") && NoStartIn(FB_QUOTE, "}")
    ensures NoStartIn(FB1_TAIL, "}") && NoStartIn(FB2_TAIL, "}")
    ensures NoStartIn("true", "}") && NoStartIn("false", "}")
  {
  }

  lemma FeedbackPiecesLackNul()
    ensures NoStartIn("{", "\0") && NoStartIn(",", "\0") && NoStartIn(FB_QUOTE, "\0")
    ensures NoStartIn(FB1_TAIL, "\0") && NoStartIn(FB2_TAIL, "\0")
    ensures NoStartIn("true", "\0") && NoStartIn("false", "\0") && NoStartIn("}", "\0")
  {
  }

  lemma Lower4(a: string, b: string, c: string, d: string)
    requires ToLower(a) == a && ToLower(b) == b && ToLower(c) == c && ToLower(d) == d
    ensures ToLower(a + b + c + d) == a + b + c + d
  {
    Lower2(a, b);
    Lower2(a + b, c);
    Lower2(a + b + c, d);
  }

  lemma FeedbackFirstLower(led1: bool)
    ensures ToLower(FeedbackFirst(led1)) == FeedbackFirst(led1)
  {
    LiteralsLower();
    BoolTextLower(led1);
    Lower4("{", FB_QUOTE, FB1_TAIL, BoolText(led1));
  }

  lemma FeedbackSecondLower(led2: bool)
    ensures ToLower(FeedbackSecond(led2)) == FeedbackSecond(led2)
  {
    LiteralsLower();
    BoolTextLower(led2);
    Lower4(",", FB_QUOTE, FB2_TAIL, BoolText(led2));
  }

  /** The feedback text is already in lower case. */
  lemma FeedbackLower(led1: bool, led2: bool)
    ensures ToLower(A.FeedbackJson(led1, led2)) == A.FeedbackJson(led1, led2)
  {
    FeedbackFirstLower(led1);
    FeedbackSecondLower(led2);
    LiteralsLower();
    Lower2(FeedbackFirst(led1), FeedbackSecond(led2));
    Lower2(FeedbackBody(led1, led2), "}");
    FeedbackSplit(led1, led2);
  }

  /** The feedback text names `feedbackled1` right after its brace and quote. */
  lemma FeedbackMentionsItself(led1: bool, led2: bool)
    ensures OccursAt(A.FeedbackJson(led1, led2), A.FEEDBACK_LED1, 2)
  {
    var head := "{" + FB_QUOTE + FB1_TAIL;
    assert OccursAt(head, A.FEEDBACK_LED1, 2);
    OccursInConcat(head, BoolText(led1), A.FEEDBACK_LED1, 2);
    OccursInConcat(FeedbackFirst(led1), FeedbackSecond(led2), A.FEEDBACK_LED1, 2);
    OccursInConcat(FeedbackBody(led1, led2), "}", A.FEEDBACK_LED1, 2);
    FeedbackSplit(led1, led2);
  }

  /** The feedback text holds no NUL, so the receiver reads it whole. */
  lemma FeedbackCString(led1: bool, led2: bool)
    ensures CString(A.FeedbackJson(led1, led2)) == A.FeedbackJson(led1, led2)
  {
    FeedbackSplit(led1, led2);
    FeedbackPiecesLackNul();
    FeedbackBodyClean(led1, led2, "\0");
    NoStartConcat(FeedbackBody(led1, led2), "}", "\0");
    CStringWhole(A.FeedbackJson(led1, led2));
  }

  /** A whole feedback text is recognised as feedback. */
  lemma FeedbackWholeIsEcho(led1: bool, led2: bool)
    ensures A.LedVerdict(Received(true, A.FeedbackJson(led1, led2))) == A.FeedbackEcho
  {
    var json := A.FeedbackJson(led1, led2);
    FeedbackCString(led1, led2);
    FeedbackLower(led1, led2);
    FeedbackMentionsItself(led1, led2);
    FeedbackSplit(led1, led2);
    assert json[0] == '{' && json[|json| - 1] == '}';
    assert StartsWith(json, "{") && EndsWith(json, "}");
    assert Contains(ToLower(json), A.FEEDBACK_LED1);
  }

  /** A text whose only `}` is its last character loses it when `strlcpy` cuts it short. */
  lemma CutLosesBrace(body: string, capacity: nat)
    requires NoStartIn(body, "}") && NoStartIn(body, "\0")
    requires 1 <= capacity <= |body| + 1
    ensures !EndsWith(CString(Strlcpy(body + "}", capacity)), "}")
  {
    FeedbackPiecesLackNul();
    var json := body + "}";
    NoStartConcat(body, "}", "\0");
    CStringWhole(json);
    var payload := Strlcpy(json, capacity);
    assert |payload| == capacity - 1;
    CStringOfPrefix(json, |payload|);
    if |payload| > 0 {
      NoStartChar(body, '}', |payload| - 1);
      assert payload[|payload| - 1] == body[|payload| - 1];
    }
  }

  /** A text that does not end with `}` once read is rejected by the shape check. */
  lemma ShapeRejected(payload: seq<char>)
    requires !EndsWith(CString(payload), "}")
    ensures A.LedVerdict(Received(true, payload)) == A.NotJson
  {
  }

  /** A feedback text cut short by the payload buffer has lost its closing brace. */
  lemma FeedbackCutIsNotJson(led1: bool, led2: bool, capacity: nat)
    requires 1 <= capacity <= |A.FeedbackJson(led1, led2)|
    ensures A.LedVerdict(Received(true, Strlcpy(A.FeedbackJson(led1, led2), capacity))) == A.NotJson
  {
    var body := FeedbackBody(led1, led2);
    FeedbackSplit(led1, led2);
    FeedbackPiecesLackBrace();
    FeedbackPiecesLackNul();
    FeedbackBodyClean(led1, led2, "}");
    FeedbackBodyClean(led1, led2, "\0");
    CutLosesBrace(body, capacity);
    ShapeRejected(Strlcpy(body + "}", capacity));
  }

  /**
   * The module never obeys its own feedback: a whole feedback text is
   * recognised as feedback, and one cut short by the payload buffer fails the
   * shape check.
   */
  lemma FeedbackNeverCommand(led1: bool, led2: bool, capacity: nat)
    requires capacity >= 1
    ensures var json := A.FeedbackJson(led1, led2);
            A.LedVerdict(Received(true, Strlcpy(json, capacity)))
              == if |json| < capacity then A.FeedbackEcho else A.NotJson
  {
    var json := A.FeedbackJson(led1, led2);
    if |json| < capacity {
      FeedbackCString(led1, led2);
      FeedbackWholeIsEcho(led1, led2);
    } else {
      FeedbackCutIsNotJson(led1, led2, capacity);
    }
  }

  /** A payload buffer of 44 bytes or more carries the feedback whole. */
  lemma FeedbackFitsBuffer(led1: bool, led2: bool, capacity: nat)
    requires capacity >= 44
    ensures |A.FeedbackJson(led1, led2)| <= 43
    ensures Strlcpy(A.FeedbackJson(led1, led2), capacity) == A.FeedbackJson(led1, led2)
  {
    FeedbackSplit(led1, led2);
    FeedbackCString(led1, led2);
  }

  /** The feedback text tells both LED states apart. */
  lemma FeedbackInjective(a1: bool, a2: bool, b1: bool, b2: bool)
    requires A.FeedbackJson(a1, a2) == A.FeedbackJson(b1, b2)
    ensures a1 == b1 && a2 == b2
  {
    assert A.FeedbackJson(a1, a2)[16] == BoolText(a1)[0];
    assert A.FeedbackJson(b1, b2)[16] == BoolText(b1)[0];
  }

  // ----- The sensor texts -----

  /** What the receiver reads out of a payload copied from `json` is a prefix of `json`. */
  lemma ReceivedIsPrefix(json: string, capacity: nat)
    requires capacity >= 1
    ensures var msg := CString(Strlcpy(json, capacity));
            |msg| <= |json| && msg == json[..|msg|]
  {
    var c := CString(json);
    var payload := Strlcpy(json, capacity);
    var msg := CString(payload);
    assert payload == c[..|payload|];
    assert msg == payload[..|msg|];
    assert msg == json[..|msg|];
  }

  /** A NUL-free head of the text survives the copy whole when the buffer has room for it. */
  lemma HeadSurvives(json: string, head: string, capacity: nat)
    requires |head| <= |json| && json[..|head|] == head
    requires NoStartIn(head, "\0") && capacity > |head|
    ensures var msg := CString(Strlcpy(json, capacity));
            |msg| >= |head| && msg[..|head|] == head
  {
    var c := CString(json);
    assert |c| >= |head| by {
      if |c| < |head| {
        NoStartChar(head, '\0', |c|);
        assert false;
      }
    }
    var payload := Strlcpy(json, capacity);
    assert |payload| >= |head|;
    CStringIdempotent(json);
    CStringOfPrefix(c, |payload|);
    assert CString(payload) == payload;
    assert payload[..|head|] == c[..|head|];
  }

  const TEMP_HEAD: string := "{\"temp\""

  /** A text whose head is `{"temp"` is a sensor message to the earlier actuator build once 7 characters fit. */
  lemma TempHeadRecognised(json: string, capacity: nat)
    requires |json| >= 7 && json[..7] == TEMP_HEAD && capacity >= 8
    ensures S.IsSensorMsg(CString(Strlcpy(json, capacity)))
  {
    HeadSurvives(json, TEMP_HEAD, capacity);
    var msg := CString(Strlcpy(json, capacity));
    assert msg[1..7] == TEMP_HEAD[1..7] == S.KEY_TEMP;
    assert OccursAt(msg, S.KEY_TEMP, 1);
  }

  /** Both sensor texts start with `{"temp"`. */
  lemma SensorTextHead(r: Readings)
    ensures |S.SensorJson(r)| >= 7 && S.SensorJson(r)[..7] == TEMP_HEAD
  {
    var a := "{" + ("\"temp\":\"" + r.temp + "\",");
    assert a[..7] == TEMP_HEAD;
  }

  lemma ActuatorSensorTextHead(r: Readings)
    ensures |A.SensorJson(r)| >= 7 && A.SensorJson(r)[..7] == TEMP_HEAD
  {
    var a := "{" + ("\"temp\":" + r.temp + ",");
    assert a[..7] == TEMP_HEAD;
  }

  /** The sensor build's text is recognised by the earlier actuator build. */
  lemma SensorTextRecognised(r: Readings, capacity: nat)
    requires capacity >= 8
    ensures S.IsSensorMsg(CString(Strlcpy(S.SensorJson(r), capacity)))
  {
    SensorTextHead(r);
    TempHeadRecognised(S.SensorJson(r), capacity);
  }

  /** The later module's sensor text is recognised by the earlier actuator build too. */
  lemma ActuatorSensorTextRecognised(r: Readings, capacity: nat)
    requires capacity >= 8
    ensures S.IsSensorMsg(CString(Strlcpy(A.SensorJson(r), capacity)))
  {
    ActuatorSensorTextHead(r);
    TempHeadRecognised(A.SensorJson(r), capacity);
  }

  /** A formatted reading holds no double quote, as the text of a number never does. */
  predicate Unquoted(v: string)
  {
    forall k :: 0 <= k < |v| ==> v[k] != '"'
  }

  /** The literal pieces of the later module's sensor text hold no upper-case letter. */
  lemma SensorPiecesUpperFree()
    ensures NoUpperFrom("\"temp\":", 0) && NoUpperFrom("\"hum\":", 0)
    ensures NoUpperFrom("\"lux\":", 0) && NoUpperFrom("\"dist\":", 0)
    ensures NoUpperFrom(",", 0) && NoUpperFrom("", 0)
  {
  }

  /** Neither LED key can start in a literal piece of the later module's sensor text. */
  lemma SensorPiecesLackLed1()
    ensures NoStartIn("{", A.KEY_LED1) && NoStartIn(",", A.KEY_LED1) && NoStartIn("}", A.KEY_LED1) && NoStartIn("", A.KEY_LED1)
    ensures NoStartIn("\"temp\":", A.KEY_LED1) && NoStartIn("\"hum\":", A.KEY_LED1)
    ensures NoStartIn("\"lux\":", A.KEY_LED1) && NoStartIn("\"dist\":", A.KEY_LED1)
  {
  }

  lemma SensorPiecesLackLed2()
    ensures NoStartIn("{", A.KEY_LED2) && NoStartIn(",", A.KEY_LED2) && NoStartIn("}", A.KEY_LED2) && NoStartIn("", A.KEY_LED2)
    ensures NoStartIn("\"temp\":", A.KEY_LED2) && NoStartIn("\"hum\":", A.KEY_LED2)
    ensures NoStartIn("\"lux\":", A.KEY_LED2) && NoStartIn("\"dist\":", A.KEY_LED2)
  {
  }

  /** A `name value separator` field, lowered, cannot hold a quoted key unless its literal parts do. */
  lemma FieldLowerClean(name: string, v: string, sep: string, key: string)
    requires |key| > 0 && key[0] == '"' && Unquoted(v)
    requires NoUpperFrom(name, 0) && NoUpperFrom(sep, 0)
    requires NoStartIn(name, key) && NoStartIn(sep, key)
    ensures NoStartIn(ToLower(name + v + sep), key)
  {
    LowerFixed(name);
    LowerFixed(sep);
    ToLowerConcat(name, v);
    ToLowerConcat(name + v, sep);
    LowerAvoids(v, '"');
    NoStartWithoutFirstChar(ToLower(v), key, 0);
    Clean3(name, ToLower(v), sep, key);
  }

  /** The later module's sensor text, lowered, holds no quoted key its literal parts do not. */
  lemma SensorJsonLacksKey(r: Readings, key: string)
    requires |key| > 0 && key[0] == '"'
    requires Unquoted(r.temp) && Unquoted(r.hum) && Unquoted(r.lux) && Unquoted(r.dist)
    requires NoStartIn("{", key) && NoStartIn(",", key) && NoStartIn("}", key) && NoStartIn("", key)
    requires NoStartIn("\"temp\":", key) && NoStartIn("\"hum\":", key)
    requires NoStartIn("\"lux\":", key) && NoStartIn("\"dist\":", key)
    ensures !Contains(ToLower(A.SensorJson(r)), key)
  {
    var f1 := "\"temp\":" + r.temp + ",";
    var f2 := "\"hum\":" + r.hum + ",";
    var f3 := "\"lux\":" + r.lux + ",";
    var f4 := "\"dist\":" + r.dist + "";
    assert f4 == "\"dist\":" + r.dist;
    SensorPiecesUpperFree();
    FieldLowerClean("\"temp\":", r.temp, ",", key);
    FieldLowerClean("\"hum\":", r.hum, ",", key);
    FieldLowerClean("\"lux\":", r.lux, ",", key);
    FieldLowerClean("\"dist\":", r.dist, "", key);
    LiteralsLower();
    ToLowerConcat("{", f1);
    ToLowerConcat("{" + f1, f2);
    ToLowerConcat("{" + f1 + f2, f3);
    ToLowerConcat("{" + f1 + f2 + f3, f4);
    ToLowerConcat("{" + f1 + f2 + f3 + f4, "}");
    assert A.SensorJson(r) == "{" + f1 + f2 + f3 + f4 + "}";
    NoStartConcat("{", ToLower(f1), key);
    Clean3("{" + ToLower(f1), ToLower(f2), ToLower(f3), key);
    Clean3("{" + ToLower(f1) + ToLower(f2) + ToLower(f3), ToLower(f4), "}", key);
    NoStartAbsent(ToLower(A.SensorJson(r)), key);
  }

  /** A prefix of a text without `key` after lowering is still without it. */
  lemma LoweredPrefixLacks(json: string, msg: string, key: string)
    requires |msg| <= |json| && msg == json[..|msg|] && !Contains(ToLower(json), key)
    ensures !Contains(ToLower(msg), key)
  {
    ToLowerPrefix(json, |msg|);
    PrefixKeepsAbsence(ToLower(json), |msg|, key);
  }

  /**
   * The later module ignores its own sensor text, whole or cut short: it holds
   * neither `"led1"` nor `"led2"`, so it is never taken for an LED command.
   */
  lemma OwnSensorTextIgnored(r: Readings, capacity: nat)
    requires capacity >= 1
    requires Unquoted(r.temp) && Unquoted(r.hum) && Unquoted(r.lux) && Unquoted(r.dist)
    ensures !A.LedVerdict(Received(true, Strlcpy(A.SensorJson(r), capacity))).Command?
  {
    var json := A.SensorJson(r);
    var msg := CString(Strlcpy(json, capacity));
    SensorPiecesLackLed1();
    SensorPiecesLackLed2();
    SensorJsonLacksKey(r, A.KEY_LED1);
    SensorJsonLacksKey(r, A.KEY_LED2);
    ReceivedIsPrefix(json, capacity);
    LoweredPrefixLacks(json, msg, A.KEY_LED1);
    LoweredPrefixLacks(json, msg, A.KEY_LED2);
  }
}
