/** One run of the page script: the "Analizar plano" button for an uploaded
    plan, then the chat box. The vision libraries are reduced to what they
    report for the uploaded plan. */
module App {
  import opened Wrappers
  import opened Plan
  import opened Dynamo
  import opened Chat

  /** What the contour finder and the OCR report for an uploaded plan. */
  datatype Upload = Upload(contours: seq<Contour>, texto: string)

  /** The points `procesar_plano` returns for an uploaded plan. */
  function PlanPoints(plan: Upload, parse: string -> Option<real>): seq<Point> {
    ElementPoints(plan.contours) + TextPoints(plan.texto, parse)
  }

  /** The log after one run of the page: the analysis when the button was
      clicked on an uploaded plan, then the chat submission. */
  function RerunLog(log: seq<Message>, upload: Option<Upload>, clicked: bool, prompt: string,
                    parse: string -> Option<real>): seq<Message>
  {
    var analysed :=
      if upload.Some? && clicked then AfterAnalysis(log, |PlanPoints(upload.value, parse)|) else log;
    AfterChat(analysed, prompt, upload.Some?)
  }

  /** When a run both analyses a plan with points and answers a prompt, the
      summary comes first, then the prompt, then the reply for an uploaded
      plan. */
  lemma RerunOrder(log: seq<Message>, plan: Upload, prompt: string, parse: string -> Option<real>)
    requires PlanPoints(plan, parse) != [] && prompt != []
    ensures RerunLog(log, Some(plan), true, prompt, parse)
      == log + [Message(Assistant, AnalysisSummary(|PlanPoints(plan, parse)|)),
                Message(User, prompt), Message(Assistant, FileReply)]
  {
    var summary := Message(Assistant, AnalysisSummary(|PlanPoints(plan, parse)|));
    var analysed := log + [summary];
    assert AfterAnalysis(log, |PlanPoints(plan, parse)|) == analysed;
    assert AfterChat(analysed, prompt, true) == analysed + [Message(User, prompt), Message(Assistant, FileReply)];
    assert analysed + [Message(User, prompt), Message(Assistant, FileReply)]
      == log + [summary, Message(User, prompt), Message(Assistant, FileReply)];
  }

  /** Without an upload nothing is analysed, and a prompt gets the reply that
      asks for a plan. */
  lemma RerunWithoutUpload(log: seq<Message>, clicked: bool, prompt: string, parse: string -> Option<real>)
    ensures prompt == [] ==> RerunLog(log, None, clicked, prompt, parse) == log
    ensures prompt != [] ==>
      RerunLog(log, None, clicked, prompt, parse)
        == log + [Message(User, prompt), Message(Assistant, NoFileReply)]
  {
  }

  /** Every run keeps the log well formed. */
  lemma RerunPreserves(log: seq<Message>, upload: Option<Upload>, clicked: bool, prompt: string,
                       parse: string -> Option<real>)
    requires WellFormedLog(log)
    ensures WellFormedLog(RerunLog(log, upload, clicked, prompt, parse))
    ensures log <= RerunLog(log, upload, clicked, prompt, parse)
  {
    var analysed :=
      if upload.Some? && clicked then AfterAnalysis(log, |PlanPoints(upload.value, parse)|) else log;
    if upload.Some? && clicked {
      StepPreserves(log, Analyzed(|PlanPoints(upload.value, parse)|));
      StepGrows(log, Analyzed(|PlanPoints(upload.value, parse)|));
    }
    StepPreserves(analysed, Prompt(prompt, upload.Some?));
    StepGrows(analysed, Prompt(prompt, upload.Some?));
  }

  /** The button "Analizar plano": the points of the plan and, when there are
      any, their script and the summary in the chat. */
  method Analyze(session: ChatSession, plan: Upload, parse: string -> Option<real>, fmt: real -> string)
    returns (codigo: Option<string>)
    requires session.Valid()
    modifies session
    ensures session.Valid()
    ensures codigo.Some? <==> PlanPoints(plan, parse) != []
    ensures codigo.Some? ==> codigo.value == Script(PlanPoints(plan, parse), fmt)
    ensures session.messages == AfterAnalysis(old(session.messages), |PlanPoints(plan, parse)|)
  {
    var puntos := ProcessPlan(plan.contours, plan.texto, parse);
    if |puntos| > 0 {
      var codigoDynamo := GenerateScript(puntos, fmt);
      session.RecordAnalysis(|puntos|);
      codigo := Some(codigoDynamo);
    } else {
      codigo := None;
    }
  }

  /** One run of the page: the analysis if the button was clicked on an
      uploaded plan, then the chat box. */
  method Rerun(session: ChatSession, upload: Option<Upload>, clicked: bool, prompt: string,
               parse: string -> Option<real>, fmt: real -> string)
    returns (codigo: Option<string>)
    requires session.Valid()
    modifies session
    ensures session.Valid()
    ensures session.messages == RerunLog(old(session.messages), upload, clicked, prompt, parse)
    ensures codigo.Some? <==> upload.Some? && clicked && PlanPoints(upload.value, parse) != []
    ensures codigo.Some? ==> codigo.value == Script(PlanPoints(upload.value, parse), fmt)
  {
    codigo := None;
    if upload.Some? && clicked {
      codigo := Analyze(session, upload.value, parse, fmt);
    }
    session.Submit(prompt, upload.Some?);
  }
}
