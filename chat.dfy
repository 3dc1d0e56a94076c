/** The chat of the assistant: a log of messages kept across reruns of the
    page, two fixed replies chosen by whether a plan is uploaded, and the
    summary appended after an analysis that found points. */
module Chat {
  import opened Text

  datatype Role = User | Assistant

  datatype Message = Message(role: Role, content: string)

  /** The reply while no plan is uploaded. */
  const NoFileReply: string := "Puedo ayudarte a analizar planos arquitectónicos. Por favor, carga un plano para comenzar."

  /** The reply once a plan is uploaded. */
  const FileReply: string := "Tengo el plano cargado. Haz clic en 'Analizar plano' para extraer las coordenadas."

  /** The text around the number of points in the analysis summary. */
  const SummaryHead: string := "He analizado el plano y encontrado "
  const SummaryTail: string := " puntos importantes. Aquí está el código para Dynamo."

  /** The assistant's answer to any prompt. */
  function Reply(uploaded: bool): string {
    if uploaded then FileReply else NoFileReply
  }

  predicate IsReply(s: string) {
    s == NoFileReply || s == FileReply
  }

  /** The assistant's message after an analysis that found `n` points. */
  function AnalysisSummary(n: nat): string {
    SummaryHead + NatToString(n) + SummaryTail
  }

  /** The two replies differ, so a reply tells exactly whether a plan is
      uploaded. */
  lemma ReplyReveals(a: bool, b: bool)
    ensures IsReply(Reply(a))
    ensures Reply(a) == Reply(b) <==> a == b
  {
    FileReplyLength(FileReply);
    NoFileReplyLength(NoFileReply);
  }

  // The lengths are stated for a parameter equal to the literal rather than
  // for the constant, which keeps the verifier from unfolding the constant
  // into every proof that mentions it.
  lemma FileReplyLength(s: string)
    requires s == "Tengo el plano cargado. Haz clic en 'Analizar plano' para extraer las coordenadas."
    ensures |s| == 82
  {}

  lemma NoFileReplyLength(s: string)
    requires s == "Puedo ayudarte a analizar planos arquitectónicos. Por favor, carga un plano para comenzar."
    ensures |s| == 90
  {}

  lemma StripAround<T>(h: seq<T>, x: seq<T>, y: seq<T>, t: seq<T>)
    requires h + x + t == h + y + t
    ensures x == y
  {
    assert x == (h + x + t)[|h|..|h| + |x|];
    assert |x| == |y|;
    assert y == (h + y + t)[|h|..|h| + |y|];
  }

  /** Different counts give different summaries. */
  lemma SummaryReveals(a: nat, b: nat)
    ensures AnalysisSummary(a) == AnalysisSummary(b) <==> a == b
  {
    if AnalysisSummary(a) == AnalysisSummary(b) {
      StripAround(SummaryHead, NatToString(a), NatToString(b), SummaryTail);
    }
  }

  /** The log after one submission of the chat box: nothing for an empty
      prompt, otherwise the prompt and then the reply. */
  function AfterChat(log: seq<Message>, prompt: string, uploaded: bool): seq<Message> {
    if prompt == [] then log
    else log + [Message(User, prompt), Message(Assistant, Reply(uploaded))]
  }

  /** A submitted prompt adds exactly two messages at the end of the log: the
      prompt as the user's, then the reply for the upload state, which does
      not depend on the prompt. */
  lemma ChatAppends(log: seq<Message>, prompt: string, other: string, uploaded: bool)
    requires prompt != [] && other != []
    ensures var r := AfterChat(log, prompt, uploaded);
      && |r| == |log| + 2
      && r[..|log|] == log
      && r[|log|] == Message(User, prompt)
      && r[|log| + 1] == AfterChat(log, other, uploaded)[|log| + 1]
      && r[|log| + 1].role == Assistant && IsReply(r[|log| + 1].content)
  {
    ReplyReveals(uploaded, uploaded);
  }

  /** What can change the log: a submitted prompt with the upload state at
      that moment, or an analysis that found `found` points. */
  datatype Event = Prompt(text: string, uploaded: bool) | Analyzed(found: nat)

  /** The log after an analysis: its summary is added only when it found at
      least one point. */
  function AfterAnalysis(log: seq<Message>, found: nat): seq<Message> {
    if found > 0 then log + [Message(Assistant, AnalysisSummary(found))] else log
  }

  /** One event applied to the log. */
  function Step(log: seq<Message>, e: Event): seq<Message> {
    match e
    case Prompt(text, uploaded) => AfterChat(log, text, uploaded)
    case Analyzed(found) => AfterAnalysis(log, found)
  }

  /** The log after a run of events, starting from the empty log of a new
      session. */
  function Replay(events: seq<Event>): seq<Message> {
    if events == [] then [] else Step(Replay(events[..|events| - 1]), events[|events| - 1])
  }

  ghost predicate IsSummary(s: string) {
    exists n: nat :: n > 0 && s == AnalysisSummary(n)
  }

  /** Every user message is a non-empty prompt answered right away by one of
      the fixed replies, and every assistant message is a fixed reply or a
      summary of an analysis that found points. */
  ghost predicate WellFormedLog(log: seq<Message>) {
    && (forall i :: 0 <= i < |log| && log[i].role == User ==>
          log[i].content != [] && i + 1 < |log| && log[i + 1].role == Assistant && IsReply(log[i + 1].content))
    && (forall i :: 0 <= i < |log| && log[i].role == Assistant ==>
          IsReply(log[i].content) || IsSummary(log[i].content))
  }

  /** No event removes or changes a message already in the log. */
  lemma StepGrows(log: seq<Message>, e: Event)
    ensures log <= Step(log, e)
  {
  }

  /** Every event keeps the log well formed. */
  lemma StepPreserves(log: seq<Message>, e: Event)
    requires WellFormedLog(log)
    ensures WellFormedLog(Step(log, e))
  {
    var r := Step(log, e);
    match e
    case Prompt(text, uploaded) =>
      if text != [] {
        ReplyReveals(uploaded, uploaded);
        assert r[|log|] == Message(User, text);
        assert r[|log| + 1] == Message(Assistant, Reply(uploaded));
        assert forall i :: 0 <= i < |log| ==> r[i] == log[i];
      }
    case Analyzed(found) =>
      if found > 0 {
        assert r[|log|].content == AnalysisSummary(found);
        assert IsSummary(r[|log|].content);
        assert forall i :: 0 <= i < |log| ==> r[i] == log[i];
      }
  }

  /** Every log that a session can reach is well formed. */
  lemma {:induction false} ReplayWellFormed(events: seq<Event>)
    ensures WellFormedLog(Replay(events))
  {
    if events != [] {
      ReplayWellFormed(events[..|events| - 1]);
      StepPreserves(Replay(events[..|events| - 1]), events[|events| - 1]);
    }
  }

  /** The log only grows: the log after some of the events is a prefix of the
      log after all of them. */
  lemma {:induction false} ReplayGrows(events: seq<Event>, i: nat)
    requires i <= |events|
    ensures Replay(events[..i]) <= Replay(events)
    decreases |events|
  {
    if i < |events| {
      var init := events[..|events| - 1];
      assert init[..i] == events[..i];
      ReplayGrows(init, i);
      StepGrows(Replay(init), events[|events| - 1]);
    } else {
      assert events[..i] == events;
    }
  }

  /** The session state of the page: its message log. */
  class ChatSession {
    var messages: seq<Message>

    ghost predicate Valid()
      reads this
    {
      WellFormedLog(messages)
    }

    /** A new session starts with an empty log. */
    constructor ()
      ensures messages == []
      ensures Valid()
    {
      messages := [];
    }

    /** A submission of the chat box. */
    method Submit(prompt: string, uploaded: bool)
      requires Valid()
      modifies this
      ensures Valid()
      ensures messages == AfterChat(old(messages), prompt, uploaded)
    {
      StepPreserves(messages, Prompt(prompt, uploaded));
      if prompt != [] {
        messages := messages + [Message(User, prompt)];
        var respuesta := NoFileReply;
        if uploaded {
          respuesta := FileReply;
        }
        messages := messages + [Message(Assistant, respuesta)];
      }
    }

    /** The summary appended after an analysis that found `found` points. */
    method RecordAnalysis(found: nat)
      requires Valid()
      requires found > 0
      modifies this
      ensures Valid()
      ensures messages == AfterAnalysis(old(messages), found)
    {
      StepPreserves(messages, Analyzed(found));
      messages := messages + [Message(Assistant, AnalysisSummary(found))];
    }
  }
}
