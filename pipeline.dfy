/** The batch flow of the analyze-resumes operation (main.py,
    analyze_resumes): one prompt per uploaded file, in upload order, then
    one call of the text-generation service per prompt, in prompt order,
    and the responses returned as they came back. The service is the
    parameter `generateContent`, a function from prompt text to response
    text. */
module Pipeline {

  import opened Extraction
  import Prompt

  /** The response body: the responses under "results". */
  datatype Payload = Payload(results: seq<string>)

  /** The prompt the operation builds for one upload. */
  function PromptFor(role: string, skills: string, experience: int, u: Upload): string
  {
    Prompt.Build(role, skills, experience, Extracted(u))
  }

  /** `f` applied to every element of `xs`, keeping their order. Both
      loops of the operation build a list this way, appending one entry per
      element. */
  function MapInOrder<A, B>(f: A -> B, xs: seq<A>): seq<B>
    decreases |xs|
  {
    if xs == [] then [] else MapInOrder(f, xs[..|xs| - 1]) + [f(xs[|xs| - 1])]
  }

  /** One output per input and output `i` comes from input `i`: nothing is
      dropped, merged or reordered. */
  lemma {:induction false} MapInOrderPositional<A, B>(f: A -> B, xs: seq<A>)
    ensures |MapInOrder(f, xs)| == |xs|
    ensures forall i :: 0 <= i < |xs| ==> MapInOrder(f, xs)[i] == f(xs[i])
    decreases |xs|
  {
    if xs != [] {
      var init := xs[..|xs| - 1];
      MapInOrderPositional(f, init);
      forall i | 0 <= i < |xs|
        ensures MapInOrder(f, xs)[i] == f(xs[i])
      {
        if i < |init| {
          assert xs[i] == init[i];
        }
      }
    }
  }

  /** The prompt builder of one request: the criteria are fixed, the upload varies. */
  function PromptOf(role: string, skills: string, experience: int): Upload -> string
  {
    u => PromptFor(role, skills, experience, u)
  }

  /** First loop: extract each upload's text and build its prompt, in
      upload order. */
  method BuildPrompts(role: string, skills: string, experience: int, uploads: seq<Upload>)
    returns (prompts: seq<string>)
    ensures prompts == MapInOrder(PromptOf(role, skills, experience), uploads)
    ensures |prompts| == |uploads|
    ensures forall i :: 0 <= i < |uploads| ==> prompts[i] == PromptFor(role, skills, experience, uploads[i])
  {
    prompts := [];
    for k := 0 to |uploads|
      invariant prompts == MapInOrder(PromptOf(role, skills, experience), uploads[..k])
    {
      var resumeText := ExtractText(uploads[k]);
      var prompt := Prompt.Build(role, skills, experience, resumeText);
      assert uploads[..k + 1][..k] == uploads[..k];
      prompts := prompts + [prompt];
    }
    assert uploads[..|uploads|] == uploads;
    MapInOrderPositional(PromptOf(role, skills, experience), uploads);
  }

  /** Second loop: one call of the service per prompt, in order; every
      response is kept. */
  method Dispatch(prompts: seq<string>, generateContent: string -> string)
    returns (responses: seq<string>)
    ensures responses == MapInOrder(generateContent, prompts)
    ensures |responses| == |prompts|
    ensures forall i :: 0 <= i < |prompts| ==> responses[i] == generateContent(prompts[i])
  {
    responses := [];
    for k := 0 to |prompts|
      invariant responses == MapInOrder(generateContent, prompts[..k])
    {
      var response := generateContent(prompts[k]);
      assert prompts[..k + 1][..k] == prompts[..k];
      responses := responses + [response];
    }
    assert prompts[..|prompts|] == prompts;
    MapInOrderPositional(generateContent, prompts);
  }

  /** The whole operation: result `i` is the service's answer to the prompt
      built from upload `i`; none is dropped, merged or moved. */
  method AnalyzeResumes(role: string, skills: string, experience: int, uploads: seq<Upload>,
                        generateContent: string -> string)
    returns (payload: Payload)
    ensures payload.results == MapInOrder(generateContent, MapInOrder(PromptOf(role, skills, experience), uploads))
    ensures |payload.results| == |uploads|
    ensures forall i :: 0 <= i < |uploads| ==>
              payload.results[i] == generateContent(PromptFor(role, skills, experience, uploads[i]))
  {
    var prompts := BuildPrompts(role, skills, experience, uploads);
    var responses := Dispatch(prompts, generateContent);
    payload := Payload(responses);
  }

  /** The prompt for an upload carries exactly that upload's extracted
      text, so result `i` answers a request about file `i` and no other. */
  lemma PromptCarriesUploadText(role: string, skills: string, experience: int, u: Upload)
    ensures Prompt.ResumeTextOf(PromptFor(role, skills, experience, u), role, skills, experience)
            == Prompt.Some(Extracted(u))
  {
    Prompt.ResumeTextRoundTrip(role, skills, experience, Extracted(u));
  }
}
