/** What the texts in a rule's evidence requirements ask for, form by form. */
module EvidenceRequirements {
  import opened Wrappers
  import opened Sequences
  import opened Text
  import opened Evidence
  import opened Evaluator
  import opened RuleMatching

  // ---------------------------------------------------------------- white space does not matter

  predicate IsBlank(s: string) {
    forall c | c in s :: IsWhitespace(c)
  }

  /** A text that neither starts nor ends with white space. */
  predicate IsTrimmed(s: string) {
    s == [] || (!IsWhitespace(s[0]) && !IsWhitespace(s[|s| - 1]))
  }

  lemma {:induction false} BlankStartGoes(blank: string, s: string)
    requires IsBlank(blank) && (s == [] || !IsWhitespace(s[0]))
    ensures TrimStart(blank + s) == s
  {
    if blank == [] {
      assert blank + s == s;
    } else {
      assert blank[0] in blank;
      assert (blank + s)[1..] == blank[1..] + s;
      BlankStartGoes(blank[1..], s);
    }
  }

  lemma {:induction false} BlankEndGoes(s: string, blank: string)
    requires IsBlank(blank) && (s == [] || !IsWhitespace(s[|s| - 1]))
    ensures TrimEnd(s + blank) == s
    decreases |blank|
  {
    if blank == [] {
      assert s + blank == s;
    } else {
      var n := |blank| - 1;
      assert blank[n] in blank;
      assert (s + blank)[..|s + blank| - 1] == s + blank[..n];
      BlankEndGoes(s, blank[..n]);
    }
  }

  /** Trimming takes away the white space around a text, all of it and nothing else. */
  lemma TrimmingMeaning(before: string, s: string, after: string)
    requires IsBlank(before) && IsTrimmed(s) && IsBlank(after)
    ensures Trim(before + s + after) == s
  {
    if s == [] {
      assert before + s + after == (before + after) + [];
      BlankStartGoes(before + after, []);
    } else {
      assert before + s + after == before + (s + after);
      BlankStartGoes(before, s + after);
      BlankEndGoes(s, after);
    }
  }

  /** A requirement asks for the same with white space around it. */
  lemma BlanksDoNotMatter(
    before: string, requirement: string, after: string, evidence: EvidenceBundle, parse: Parser)
    requires IsBlank(before) && IsTrimmed(requirement) && IsBlank(after)
    ensures HasRequiredEvidence(before + requirement + after, evidence, parse)
       <==> HasRequiredEvidence(requirement, evidence, parse)
  {
    TrimmingMeaning(before, requirement, after);
    TrimmingMeaning([], requirement, []);
    assert [] + requirement + [] == requirement;
  }

  /** Blanks, tabs and line ends are white space; letters, digits and the punctuation of requirements are not. */
  lemma WhiteSpaceIs(c: char)
    ensures c in " \t\n\r" ==> IsWhitespace(c)
    ensures '!' <= c <= '~' ==> !IsWhitespace(c)
  {
  }

  // ---------------------------------------------------------------- the forms

  lemma Unchanged(requirement: string)
    requires IsTrimmed(requirement)
    ensures Trim(requirement) == requirement
  {
    TrimmingMeaning([], requirement, []);
    assert [] + requirement + [] == requirement;
  }

  /** `terminal_state`: the run ended in a known state. */
  lemma TerminalStateRequired(evidence: EvidenceBundle, parse: Parser)
    ensures HasRequiredEvidence("terminal_state", evidence, parse) <==> evidence.terminalState.Some?
  {
    Unchanged("terminal_state");
  }

  lemma Stripped(prefix: string, rest: string)
    ensures StripPrefix(prefix + rest, prefix) == Some(rest)
  {
  }

  lemma AttributeTextIsTrimmed(rest: string)
    requires rest != [] && !IsWhitespace(rest[|rest| - 1])
    ensures IsTrimmed("attribute:" + rest) && "attribute:" + rest != "terminal_state"
  {
    assert ("attribute:" + rest)[0] == 'a' && "terminal_state"[0] == 't';
  }

  /** `attribute:key`: some event has the attribute, whatever its value. */
  lemma AttributeRequired(key: string, evidence: EvidenceBundle, parse: Parser)
    requires key != [] && !IsWhitespace(key[|key| - 1]) && '=' !in key
    ensures HasRequiredEvidence("attribute:" + key, evidence, parse) <==>
              exists event | event in evidence.events :: key in event.attributes
  {
    AttributeTextIsTrimmed(key);
    Unchanged("attribute:" + key);
    Stripped("attribute:", key);
  }

  /** `attribute:key=value`: some event has it with that text, or with what the text reads as. */
  lemma AttributeValueRequired(key: string, value: string, evidence: EvidenceBundle, parse: Parser)
    requires '=' !in key && (value == [] || !IsWhitespace(value[|value| - 1]))
    ensures HasRequiredEvidence("attribute:" + (key + ['='] + value), evidence, parse) <==>
              exists event | event in evidence.events ::
                key in event.attributes
                && (event.attributes[key] == Str(value) || parse(value) == Some(event.attributes[key]))
  {
    var rest := key + ['='] + value;
    AttributeTextIsTrimmed(rest);
    Unchanged("attribute:" + rest);
    Stripped("attribute:", rest);
    FirstOccurrence(key, '=', value);
  }

  /** `type` or the name of an attribute: some event is of that type, or has that attribute. */
  lemma TypeOrAttributeRequired(text: string, evidence: EvidenceBundle, parse: Parser)
    requires IsTrimmed(text) && '.' !in text && text != "terminal_state" && !("attribute:" <= text)
    ensures HasRequiredEvidence(text, evidence, parse) <==>
              exists event | event in evidence.events :: EventTypeName(event.eventType) == text || text in event.attributes
  {
    Unchanged(text);
  }

  // ---------------------------------------------------------------- typed paths

  /** The type an event type's serialized name stands for. */
  function TypeNamed(name: string): Option<EventType> {
    if name == "scenario_input" then Some(ScenarioInput)
    else if name == "agent_start" then Some(AgentStart)
    else if name == "model_call" then Some(ModelCall)
    else if name == "model_result" then Some(ModelResult)
    else if name == "tool_call" then Some(ToolCall)
    else if name == "tool_result" then Some(ToolResult)
    else if name == "retrieval" then Some(Retrieval)
    else if name == "handoff" then Some(Handoff)
    else if name == "guardrail_decision" then Some(GuardrailDecision)
    else if name == "human_approval_request" then Some(HumanApprovalRequest)
    else if name == "human_approval_decision" then Some(HumanApprovalDecision)
    else if name == "final_output" then Some(FinalOutput)
    else if name == "side_effect" then Some(SideEffect)
    else if name == "retry" then Some(Retry)
    else if name == "error" then Some(ErrorEvent)
    else if name == "timeout" then Some(Timeout)
    else if name == "cancellation" then Some(Cancellation)
    else if name == "unclassified" then Some(Unclassified)
    else None
  }

  /** Serialized names are read back as the type they were written for, so no two types share one. */
  lemma TypeNamesRoundTrip(t: EventType)
    ensures TypeNamed(EventTypeName(t)) == Some(t)
  {
  }

  predicate IsLetter(c: char) {
    'a' <= c <= 'z' || c == '_'
  }

  /** A type's name is written in lower case letters and underscores. */
  lemma TypeNamesArePlain(t: EventType)
    ensures EventTypeName(t) != []
    ensures forall c | c in EventTypeName(t) :: IsLetter(c)
  {
    if HasALongName(t) {
      LongNamesArePlain(t);
    } else {
      ShortNamesArePlain(t);
    }
  }

  predicate HasALongName(t: EventType) {
    t in {GuardrailDecision, HumanApprovalRequest, HumanApprovalDecision, FinalOutput, ScenarioInput, SideEffect, Unclassified}
  }

  lemma LongNamesArePlain(t: EventType)
    requires HasALongName(t)
    ensures EventTypeName(t) != []
    ensures forall c | c in EventTypeName(t) :: IsLetter(c)
  {
  }

  lemma ShortNamesArePlain(t: EventType)
    requires !HasALongName(t)
    ensures EventTypeName(t) != []
    ensures forall c | c in EventTypeName(t) :: IsLetter(c)
  {
  }

  predicate IsPlain(name: string) {
    name != [] && forall c | c in name :: IsLetter(c)
  }

  lemma PlainHeadIsTrimmed(name: string, path: string)
    requires IsPlain(name) && path != [] && !IsWhitespace(path[|path| - 1])
    ensures IsTrimmed(name + ['.'] + path)
  {
    var text := name + ['.'] + path;
    assert name[0] in name && text[0] == name[0] && text[|text| - 1] == path[|path| - 1];
  }

  /** A plain name with a path is neither of the special forms. */
  lemma PlainHeadIsNotSpecial(name: string, path: string)
    requires IsPlain(name)
    ensures name + ['.'] + path != "terminal_state"
    ensures StripPrefix(name + ['.'] + path, "attribute:").None?
    ensures '.' !in name
  {
    var text := name + ['.'] + path;
    assert text[|name|] == '.';
    assert forall i | 0 <= i < |"terminal_state"| :: "terminal_state"[i] != '.';
    assert forall i | 0 <= i < |"attribute:"| :: "attribute:"[i] != '.';
    assert |name| > 9 ==> name[9] in name && text[9] == name[9] != ':';
  }

  lemma TypedPathIsRead(name: string, path: string)
    requires IsPlain(name) && path != [] && !IsWhitespace(path[|path| - 1])
    ensures var text := name + ['.'] + path;
            && Trim(text) == text && text != "terminal_state" && StripPrefix(text, "attribute:").None?
            && SplitOnce(text, '.') == Some((name, path))
  {
    PlainHeadIsTrimmed(name, path);
    PlainHeadIsNotSpecial(name, path);
    Unchanged(name + ['.'] + path);
    FirstOccurrence(name, '.', path);
  }

  /** A supported path is asked of events of the type alone. */
  lemma TypedPathRequired(t: EventType, path: string, evidence: EvidenceBundle, parse: Parser)
    requires SupportedPath(path) && !IsWhitespace(path[|path| - 1])
    ensures HasRequiredEvidence(EventTypeName(t) + ['.'] + path, evidence, parse) <==>
              exists event | event in evidence.events :: event.eventType == t && EventHasPath(event, path)
  {
    TypeNamesArePlain(t);
    TypedPathIsRead(EventTypeName(t), path);
    forall event | event in evidence.events
      ensures EventSupplies(event, EventTypeName(t) + ['.'] + path, parse) <==>
                event.eventType == t && EventHasPath(event, path)
    {
      SameNameSameType(t, event.eventType);
      TypedPathSupplied(t, EventTypeName(t), path, event, parse);
    }
  }

  lemma SameNameSameType(a: EventType, b: EventType)
    ensures EventTypeName(a) == EventTypeName(b) <==> a == b
  {
    TypeNamesRoundTrip(a);
    TypeNamesRoundTrip(b);
  }

  lemma TypedPathSupplied(t: EventType, name: string, path: string, event: Event, parse: Parser)
    requires name == EventTypeName(t) && SupportedPath(path)
    requires StripPrefix(name + ['.'] + path, "attribute:").None?
    requires SplitOnce(name + ['.'] + path, '.') == Some((name, path))
    ensures EventSupplies(event, name + ['.'] + path, parse) <==>
              EventTypeName(event.eventType) == name && EventHasPath(event, path)
  {
  }

  /** The event has something under the keys. */
  ghost predicate HasUnder(value: Value, keys: seq<string>) {
    exists found :: Leads(value, keys, found)
  }

  lemma PathIsThere(value: Value, keys: seq<string>)
    requires keys != [] && forall key | key in keys :: '.' !in key
    ensures ValueAtPath(value, Join(keys, '.')).Some? <==> HasUnder(value, keys)
  {
    if ValueAtPath(value, Join(keys, '.')).Some? {
      PathLeads(value, keys, ValueAtPath(value, Join(keys, '.')).value);
    }
    if found :| Leads(value, keys, found) {
      PathLeads(value, keys, found);
    }
  }

  predicate IsPath(keys: seq<string>) {
    && keys != [] && (forall key | key in keys :: '.' !in key)
    && Join(keys, '.') != [] && !IsWhitespace(Join(keys, '.')[|Join(keys, '.')| - 1])
  }

  /** `type.input.path`: some event of that type was given something under the path. */
  lemma InputRequired(t: EventType, keys: seq<string>, evidence: EvidenceBundle, parse: Parser)
    requires IsPath(keys)
    ensures HasRequiredEvidence(EventTypeName(t) + ['.'] + ("input." + Join(keys, '.')), evidence, parse) <==>
              exists event | event in evidence.events :: event.eventType == t && HasUnder(event.input, keys)
  {
    var path := "input." + Join(keys, '.');
    TypedPathRequired(t, path, evidence, parse);
    Stripped("input.", Join(keys, '.'));
    forall event | event in evidence.events ensures EventHasPath(event, path) <==> HasUnder(event.input, keys) {
      PathIsThere(event.input, keys);
    }
  }

  lemma OutputIsNotInput(rest: string)
    ensures StripPrefix("output." + rest, "input.").None?
    ensures StripPrefix("attributes." + rest, "input.").None? && StripPrefix("attributes." + rest, "output.").None?
  {
    assert ("output." + rest)[0] == 'o' && ("attributes." + rest)[0] == 'a' && "input."[0] == 'i' && "output."[0] == 'o';
  }

  /** `type.output.path`: some event of that type gave something under the path. */
  lemma OutputRequired(t: EventType, keys: seq<string>, evidence: EvidenceBundle, parse: Parser)
    requires IsPath(keys)
    ensures HasRequiredEvidence(EventTypeName(t) + ['.'] + ("output." + Join(keys, '.')), evidence, parse) <==>
              exists event | event in evidence.events :: event.eventType == t && HasUnder(event.output, keys)
  {
    var path := "output." + Join(keys, '.');
    TypedPathRequired(t, path, evidence, parse);
    OutputIsNotInput(Join(keys, '.'));
    Stripped("output.", Join(keys, '.'));
    forall event | event in evidence.events ensures EventHasPath(event, path) <==> HasUnder(event.output, keys) {
      PathIsThere(event.output, keys);
    }
  }

  /** `type.attributes.path`: some event of that type has the attribute of that name, or something under the path. */
  lemma AttributePathRequired(t: EventType, keys: seq<string>, evidence: EvidenceBundle, parse: Parser)
    requires IsPath(keys)
    ensures HasRequiredEvidence(EventTypeName(t) + ['.'] + ("attributes." + Join(keys, '.')), evidence, parse) <==>
              exists event | event in evidence.events ::
                event.eventType == t && (Join(keys, '.') in event.attributes || HasUnder(Object(event.attributes), keys))
  {
    var path := "attributes." + Join(keys, '.');
    TypedPathRequired(t, path, evidence, parse);
    OutputIsNotInput(Join(keys, '.'));
    Stripped("attributes.", Join(keys, '.'));
    forall event | event in evidence.events
      ensures EventHasPath(event, path) <==> (Join(keys, '.') in event.attributes || HasUnder(Object(event.attributes), keys))
    {
      PathIsThere(Object(event.attributes), keys);
    }
  }

  /** Any other text with a dot is the name of an attribute. */
  lemma DottedAttributeRequired(head: string, tail: string, evidence: EvidenceBundle, parse: Parser)
    requires var text := head + ['.'] + tail;
             IsTrimmed(text) && text != "terminal_state" && !("attribute:" <= text)
    requires '.' !in head
    requires TypeNamed(head).None? || !("input." <= tail || "output." <= tail || "attributes." <= tail)
    ensures var text := head + ['.'] + tail;
            HasRequiredEvidence(text, evidence, parse) <==> exists event | event in evidence.events :: text in event.attributes
  {
    var text := head + ['.'] + tail;
    Unchanged(text);
    FirstOccurrence(head, '.', tail);
    assert text[|head|] == '.';
    forall t: EventType ensures EventTypeName(t) != text && (TypeNamed(head).None? ==> EventTypeName(t) != head) {
      TypeNamesArePlain(t);
      TypeNamesRoundTrip(t);
      assert '.' !in EventTypeName(t) && '.' in text;
    }
  }

  // ---------------------------------------------------------------- terminal states that events report

  /** The attributes that may report a terminal state; the first of them that is there counts. */
  const STATE_ATTRIBUTES := ["terminal_state", "featherlane.run.terminal_state", "governance.terminal_state"]

  /** An event reports the text of the first such attribute it has, and nothing if that is not a text. */
  lemma ReportedStateMeaning(event: Event, k: nat)
    requires k < 3 && STATE_ATTRIBUTES[k] in event.attributes
    requires forall j | 0 <= j < k :: STATE_ATTRIBUTES[j] !in event.attributes
    ensures forall state :: ReportedTerminalState(event) == Some(state) <==> event.attributes[STATE_ATTRIBUTES[k]] == Str(state)
  {
    assert k >= 1 ==> STATE_ATTRIBUTES[0] !in event.attributes;
    assert k >= 2 ==> STATE_ATTRIBUTES[1] !in event.attributes;
  }

  lemma NoStateAttributeNoReport(event: Event)
    requires forall k | 0 <= k < 3 :: STATE_ATTRIBUTES[k] !in event.attributes
    ensures ReportedTerminalState(event) == None
  {
    assert STATE_ATTRIBUTES[0] !in event.attributes && STATE_ATTRIBUTES[1] !in event.attributes
        && STATE_ATTRIBUTES[2] !in event.attributes;
  }

  /** Whatever an insufficient trace or missing evidence means is the rule's choice, and nothing is cited for it. */
  lemma MissingEvidenceMeaning(rule: CompiledRule, evidence: EvidenceBundle, parse: Parser)
    requires evidence.traceQuality == Insufficient
             || exists requirement | requirement in rule.evidenceRequired :: !HasRequiredEvidence(requirement, evidence, parse)
    ensures var result := RuleOutcome(rule, evidence, parse);
            && result.cited == []
            && (result.status == NotObservable <==> rule.onMissingEvidence == ReportNotObservable)
            && (result.status == Failed <==> rule.onMissingEvidence == ReportFail)
            && (result.status == Errored <==> rule.onMissingEvidence == ReportError)
  {
  }
}
