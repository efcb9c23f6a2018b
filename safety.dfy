/**
 * The input guardrail of the simulate route (server/src/lib/safety.ts): a user
 * turn is trimmed, and one shorter than `MinInputLength` UTF-16 code units is
 * wrapped in a fixed note asking the model to react as a person who did not
 * quite catch what was said.
 */
module Safety {
  import opened Text

  const MinInputLength: nat := 10

  const SafetyPrefix: string :=
    "The user's message was very brief. Stay in character as the employee. "
    + "Respond with mild confusion or a gentle prompt for them to elaborate, "
    + "like a real person who didn't quite catch what was said. Keep it natural."

  /** What the guardrail returns: the message to send and whether the note was
      applied. */
  datatype Guarded = Guarded(message: string, guardrailApplied: bool)

  /** Everything of the safety note before the quoted user text. */
  function NoteHead(): (h: string)
    ensures |h| >= MinInputLength && h[0] == '['
  {
    "[SAFETY NOTE: " + SafetyPrefix + "]\n\nUser said: \""
  }

  /** The note wrapped around a brief, already trimmed, user text. */
  function SafetyNote(trimmed: string): (note: string)
    ensures |note| == |NoteHead()| + |trimmed| + 1
    ensures note[..|NoteHead()|] == NoteHead() && note[|NoteHead()|..|NoteHead()| + |trimmed|] == trimmed
    ensures note[0] == '[' && note[|note| - 1] == '"'
  {
    NoteHead() + trimmed + "\""
  }

  /** `applySafetyGuardrail`. */
  function ApplySafetyGuardrail(userMessage: string): (g: Guarded)
    ensures g.guardrailApplied <==> JsLength(Trim(userMessage)) < MinInputLength
    ensures IsTrimmed(g.message) && JsLength(g.message) >= MinInputLength
  {
    var trimmed := Trim(userMessage);
    if JsLength(trimmed) < MinInputLength then
      Guarded(SafetyNote(trimmed), true)
    else
      Guarded(trimmed, false)
  }

  /** Applied or not, the message carries the trimmed input: as it is when the
      input is long enough, quoted after the note otherwise. */
  lemma GuardrailMessage(userMessage: string)
    ensures var g := ApplySafetyGuardrail(userMessage);
      && (!g.guardrailApplied ==> g.message == Trim(userMessage))
      && (g.guardrailApplied ==> g.message == NoteHead() + Trim(userMessage) + "\"")
  {
  }

  /** The trimmed input always occurs in the message. */
  lemma GuardrailKeepsText(userMessage: string)
    ensures Contains(ApplySafetyGuardrail(userMessage).message, Trim(userMessage))
  {
    var g := ApplySafetyGuardrail(userMessage);
    var t := Trim(userMessage);
    if g.guardrailApplied {
      assert OccursAt(t, g.message, |NoteHead()|);
    } else {
      assert g.message[0..|t|] == t;
      assert OccursAt(t, g.message, 0);
    }
  }

  /** Surrounding white space makes no difference. */
  lemma GuardrailIgnoresSpace(userMessage: string)
    ensures ApplySafetyGuardrail(Trim(userMessage)) == ApplySafetyGuardrail(userMessage)
  {
    TrimIdempotent(userMessage);
  }

  /** A returned message goes through the guardrail again unchanged and
      without the note. */
  lemma GuardrailIdempotent(userMessage: string)
    ensures var m := ApplySafetyGuardrail(userMessage).message;
      ApplySafetyGuardrail(m) == Guarded(m, false)
  {
    var m := ApplySafetyGuardrail(userMessage).message;
    TrimOfTrimmed(m);
  }

  /** An empty or all-blank input gets the note around an empty quote. */
  lemma BlankInputGetsNote(userMessage: string)
    requires forall i :: 0 <= i < |userMessage| ==> IsWhiteSpace(userMessage[i])
    ensures ApplySafetyGuardrail(userMessage) == Guarded(NoteHead() + "\"", true)
  {
    TrimIsSlice(userMessage);
    var t := Trim(userMessage);
    if t != [] {
      var lead := |userMessage| - |TrimStart(userMessage)|;
      assert t[0] == userMessage[lead];
    }
    assert NoteHead() + [] + "\"" == NoteHead() + "\"";
  }
}
