/** The local intent rule (app/intent_router.py): a fixed set of exit
    keywords is recognised without consulting the language model; any other
    input is left to the model, whose answer is a parameter here. */
module IntentRouter {
  import opened Basics
  import opened Text

  datatype IntentType = Exit | Sql | Chat

  datatype IntentResult = IntentResult(intent: IntentType, confidence: real, reason: string)

  const ExitKeywords: set<string> := {"/exit", "exit", "quit", "bye", "退出", "結束", "离开", "離開"}

  const ExitReason := "Matched local exit keyword."

  /** `_rule_based_intent`. */
  function RuleBasedIntent(userInput: string): Option<IntentResult> {
    var text := Lower(Strip(userInput));
    if text == "" then None
    else if text in ExitKeywords then Some(IntentResult(Exit, 1.0, ExitReason))
    else None
  }

  /** `classify_intent`, with the language model's classification of the
      input passed in as `llmResult`. When the rule answers, the model's
      answer is not used; otherwise it is returned as it is. */
  function ClassifyIntent(userInput: string, llmResult: IntentResult): (r: IntentResult)
    ensures Lower(Strip(userInput)) in ExitKeywords ==> r == IntentResult(Exit, 1.0, ExitReason)
    ensures Lower(Strip(userInput)) !in ExitKeywords ==> r == llmResult
  {
    match RuleBasedIntent(userInput)
    case Some(local) => local
    case None => llmResult
  }

  /** The rule answers only for an exit keyword, and then with EXIT at full
      confidence; blank input and everything else get no answer, so the rule
      never yields SQL or CHAT. */
  lemma RuleBasedIntentSpec(userInput: string)
    ensures RuleBasedIntent(userInput).Some? <==> Lower(Strip(userInput)) in ExitKeywords
    ensures AllSpace(userInput) ==> RuleBasedIntent(userInput).None?
    ensures RuleBasedIntent(userInput).Some? ==>
      RuleBasedIntent(userInput).value == IntentResult(Exit, 1.0, ExitReason)
  {
    StripSpec(userInput);
    assert "" !in ExitKeywords;
  }

  /** Case and surrounding whitespace do not matter. */
  lemma RuleBasedIntentNormalized(userInput: string)
    ensures RuleBasedIntent(Lower(Strip(userInput))) == RuleBasedIntent(userInput)
  {
    StripLowerCommute(Strip(userInput));
    StripIdempotent(userInput);
    LowerIdempotent(Strip(userInput));
  }

  /** The keywords are recognised in any case and with surrounding blanks. */
  lemma ExitExample()
    ensures RuleBasedIntent("  QUIT ").Some?
  {
    var s := "  QUIT ";
    assert SkipSpaces(s, 0) == 2;
    assert TrimEnd(s, 2, 7) == 6;
    assert Strip(s) == "QUIT";
    assert Lower("QUIT") == "quit";
  }
}
