/**
 * Log text built by the timer: the error callback installed by Init
 * (logic/timer.go:53-60), the "Job is ready" line (logic/timer.go:168) and
 * the comma-joined ID list (logic/timer.go:138). Go's fmt.Sprintf is
 * modelled for "%s", the only verb these templates use, and the "%%" escape.
 */
module Format {
  import opened Wrappers

  /** One log record: nothing, an error line, or an info line. */
  datatype Log = Silent | Failure(text: string) | Info(text: string)

  /**
   * fmt.Sprintf with string arguments: "%s" takes the next argument (or
   * prints "%!s(MISSING)" when none is left), "%%" prints one '%', every
   * other character is copied.
   */
  function Sprintf(template: string, args: seq<string>): string
    decreases |template|
  {
    if template == [] then []
    else if template[0] == '%' && |template| >= 2 && template[1] == 's' then
      (if args == [] then "%!s(MISSING)" else args[0])
        + Sprintf(template[2..], if args == [] then [] else args[1..])
    else if template[0] == '%' && |template| >= 2 && template[1] == '%' then
      "%" + Sprintf(template[2..], args)
    else
      [template[0]] + Sprintf(template[1..], args)
  }

  /** Text without a '%' is copied through unchanged. */
  lemma {:induction false} SprintfLiteral(lit: string, rest: string, args: seq<string>)
    requires '%' !in lit
    ensures Sprintf(lit + rest, args) == lit + Sprintf(rest, args)
    decreases |lit|
  {
    if lit == [] {
      assert lit + rest == rest;
    } else {
      var t := lit + rest;
      assert lit[0] in lit;
      assert t[0] == lit[0] && t[0] != '%';
      assert t[1..] == lit[1..] + rest;
      assert Sprintf(t, args) == [lit[0]] + Sprintf(lit[1..] + rest, args);
      SprintfLiteral(lit[1..], rest, args);
      assert lit == [lit[0]] + lit[1..];
    }
  }

  /** "%s" consumes exactly the next argument. */
  lemma SprintfVerb(rest: string, a: string, args: seq<string>)
    ensures Sprintf("%s" + rest, [a] + args) == a + Sprintf(rest, args)
  {
    var t := "%s" + rest;
    assert t[0] == '%' && t[1] == 's';
    assert t[2..] == rest;
    assert ([a] + args)[1..] == args;
  }

  /** strings.Join. */
  function Join(parts: seq<string>, sep: string): string
  {
    if parts == [] then ""
    else if |parts| == 1 then parts[0]
    else parts[0] + sep + Join(parts[1..], sep)
  }

  const FailureTemplate: string := "FAILURE: func %s, %s%s."
  const ReadyTemplate: string := "Job is ready, Topic: %s, IDs: [%s]"

  /**
   * The error callback: silent for a nil error; otherwise one error line
   * naming the function, the error text and, when data is non-empty, the
   * data in brackets.
   */
  function HandleError(err: Option<string>, funcName: string, data: string): (log: Log)
    ensures log.Silent? <==> err.None?
    ensures !log.Info?
  {
    match err
    case None => Silent
    case Some(e) =>
      var suffix := if data != "" then ", [" + data + "]" else "";
      Failure(Sprintf(FailureTemplate, [funcName, e, suffix]))
  }

  /** The success line of one move: topic and comma-joined job IDs. */
  function ReadyLog(topic: string, idsText: string): (log: Log)
    ensures log.Info?
  {
    Info(Sprintf(ReadyTemplate, [topic, idsText]))
  }

  /** A template with two "%s" verbs between literal text. */
  lemma SprintfTwo(l0: string, l1: string, l2: string, a: string, b: string)
    requires '%' !in l0 && '%' !in l1 && '%' !in l2
    ensures Sprintf(l0 + ("%s" + (l1 + ("%s" + l2))), [a, b]) == l0 + a + l1 + b + l2
  {
    var t1 := l1 + ("%s" + l2);
    SprintfTail(l1, l2, b);
    SprintfVerb(t1, a, [b]);
    assert [a] + [b] == [a, b];
    SprintfLiteral(l0, "%s" + t1, [a, b]);
    Regroup(l0, a, l1, b, l2);
  }

  /** The last verb of a template and the literal text around it. */
  lemma SprintfTail(l1: string, l2: string, c: string)
    requires '%' !in l1 && '%' !in l2
    ensures Sprintf(l1 + ("%s" + l2), [c]) == l1 + (c + l2)
  {
    SprintfLiteral(l2, [], []);
    assert l2 + [] == l2;
    SprintfVerb(l2, c, []);
    assert [c] + [] == [c];
    SprintfLiteral(l1, "%s" + l2, [c]);
  }

  lemma Regroup(l0: string, a: string, l1: string, b: string, l2: string)
    ensures l0 + (a + (l1 + (b + l2))) == l0 + a + l1 + b + l2
  {
  }

  lemma RegroupSix(l0: string, a: string, l1: string, b: string, c: string, l2: string)
    ensures l0 + (a + (l1 + (b + (c + l2)))) == l0 + a + l1 + b + c + l2
  {
  }

  /**
   * A template with three "%s" verbs, the last two adjacent, as in the
   * error template.
   */
  lemma SprintfThree(l0: string, l1: string, l2: string, a: string, b: string, c: string)
    requires '%' !in l0 && '%' !in l1 && '%' !in l2
    ensures Sprintf(l0 + ("%s" + (l1 + ("%s" + ("%s" + l2)))), [a, b, c])
         == l0 + a + l1 + b + c + l2
  {
    var t1 := l1 + ("%s" + ("%s" + l2));
    SprintfPair(l1, l2, b, c);
    SprintfVerb(t1, a, [b, c]);
    assert [a] + [b, c] == [a, b, c];
    SprintfLiteral(l0, "%s" + t1, [a, b, c]);
    RegroupSix(l0, a, l1, b, c, l2);
  }

  /** Two adjacent verbs after literal text. */
  lemma SprintfPair(l1: string, l2: string, b: string, c: string)
    requires '%' !in l1 && '%' !in l2
    ensures Sprintf(l1 + ("%s" + ("%s" + l2)), [b, c]) == l1 + (b + (c + l2))
  {
    SprintfTail([], l2, c);
    assert [] + ("%s" + l2) == "%s" + l2;
    assert [] + (c + l2) == c + l2;
    SprintfVerb("%s" + l2, b, [c]);
    assert [b] + [c] == [b, c];
    SprintfLiteral(l1, "%s" + ("%s" + l2), [b, c]);
  }

  /** The error template filled with a function name, an error and a suffix. */
  lemma FailureTemplateText(funcName: string, e: string, suffix: string)
    ensures Sprintf(FailureTemplate, [funcName, e, suffix])
         == "FAILURE: func " + funcName + ", " + e + suffix + "."
  {
    assert FailureTemplate == "FAILURE: func " + ("%s" + (", " + ("%s" + ("%s" + "."))));
    SprintfThree("FAILURE: func ", ", ", ".", funcName, e, suffix);
  }

  /** The exact text of an error line. */
  lemma HandleErrorText(e: string, funcName: string, data: string)
    ensures HandleError(Some(e), funcName, data)
         == Failure("FAILURE: func " + funcName + ", " + e
                    + (if data != "" then ", [" + data + "]" else "") + ".")
  {
    var suffix := if data != "" then ", [" + data + "]" else "";
    assert HandleError(Some(e), funcName, data) == Failure(Sprintf(FailureTemplate, [funcName, e, suffix]));
    FailureTemplateText(funcName, e, suffix);
  }

  /** The exact text of the success line. */
  lemma ReadyLogText(topic: string, idsText: string)
    ensures ReadyLog(topic, idsText)
         == Info("Job is ready, Topic: " + topic + ", IDs: [" + idsText + "]")
  {
    assert ReadyTemplate == "Job is ready, Topic: " + ("%s" + (", IDs: [" + ("%s" + "]")));
    SprintfTwo("Job is ready, Topic: ", ", IDs: [", "]", topic, idsText);
  }
}
