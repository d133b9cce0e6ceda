# Resume screening pipeline, modelled in Dafny

This project models the text pipeline behind the `/analyze-resumes`
operation of a small applicant-tracking service. The caller uploads a batch of
resumes (PDF or Word) together with a role, the required skills and a minimum
number of years of experience. For each upload the service does three things.
It extracts plain text from the file. It builds an evaluation prompt from the
criteria and that text. It then asks a text-generation service for a verdict.
The service's answers are returned, in upload order, under `"results"`.

Modules:

- `Strings` (strings.dfy): joining a list of strings end to end (`Concat`),
  with lemmas saying that nothing is inserted between the parts and that
  every part keeps its place.
- `Extraction` (extraction.dfy): `extract_text`. An `Upload` carries what the
  PDF reader yields for each page, what the Word reader yields for each
  paragraph, and the declared media type. `ExtractText` is the loop that
  builds the text; `Extracted` is the function that specifies it.
- `Prompt` (prompt.dfy): the fixed instruction block, the decimal rendering
  of the experience figure, the labelled header lines, and `Build`, the
  prompt for one resume.
- `Pipeline` (pipeline.dfy): the two loops of `analyze_resumes` and the
  response payload. The text-generation service is the parameter
  `generateContent`, a function from prompt text to response text.

Two behaviours of the code are worth stating outright:

- A media type other than PDF or Word is not rejected. `extract_text` returns
  the empty string for it, and that file still gets a prompt and a call to
  the service.
- The instruction asks for the candidate's name and mobile number only.

## Model

| member | source | states |
|---|---|---|
| `Extraction.ExtractText` | main.py:26-39 | For `application/pdf` the text is the page texts joined in page order. For the OOXML word-processing type it is each paragraph followed by `"\n"`, in order. For any other type it is `""`. The loop's result equals the specification function `Extracted`. |
| `Strings.ConcatAppend` | main.py:31-32 | Joining two runs of pages equals joining each run and then the two results, so no separator is added at any page boundary. |
| `Strings.ConcatLength` | main.py:31-32 | The joined text is exactly as long as all page texts together. |
| `Strings.PartInPlace` | main.py:29-32 | Page `i` appears unchanged in the PDF text, starting right after the total length of pages `0..i-1`. |
| `Extraction.TerminatedLength` | main.py:36-37 | Adding the line feeds adds exactly one character per paragraph. |
| `Extraction.WordTextLength` | main.py:34-37 | The Word text is as long as the paragraph lengths plus the paragraph count. |
| `Extraction.ParagraphInPlace` | main.py:34-37 | Paragraph `i` appears unchanged after the earlier paragraphs and their line feeds, and is followed by its own `"\n"`. |
| `Extraction.EmptyDocumentGivesEmptyText` | main.py:27-39 | A PDF with no pages, a Word document with no paragraphs, or an unrecognised media type all give `""`, with no error. |
| `Prompt.NatToDecimal` | main.py:64 | Rendering a non-negative number gives a non-empty string of decimal digits with no leading zero. |
| `Prompt.IntToDecimal` | main.py:64 | Rendering `experience` gives a non-empty string that starts with `-` exactly when the value is negative. |
| `Prompt.NatToDecimalValue` | main.py:64 | The digit string of `n` denotes `n`. |
| `Prompt.IntToDecimalRoundTrip` | main.py:64 | The rendered experience figure parses back to the same integer, so different figures give different text. |
| `Prompt.Header` | main.py:61-65 | The labelled lines before the resume text have a length fixed by role, skills and experience alone (`ResumeStart`). |
| `Prompt.HeaderLabels` | main.py:62-65 | The header starts with `"Position or Role: "`. `"\n" + "Required Skills: "` follows the role, `"\n" + "Minimum Working Experience: "` follows the skills, and `" years" + "\n" + "Resume Content: "` follows the rendered experience and ends the header. |
| `Prompt.HeaderFields` | main.py:62-64 | The role, the skills and the rendered experience each appear unchanged in the header, each right after its own label. |
| `Prompt.HeaderPrefix` | main.py:61-65 | Any text that starts with the header carries every label and criterion at the same offsets, ending with `" years" + "\n" + "Resume Content: "` after the rendered experience, whose next character is therefore a space. |
| `Prompt.Build` | main.py:53-67 | The prompt is the header, then the resume text at the offset `ResumeStart`, fixed by the criteria alone. It always ends with `"\n"` and then the instruction block. That block is the five instruction literals joined with nothing between them, and it depends on no input. `Build` is a function, so equal inputs always give equal prompts. |
| `Prompt.BuildFields` | main.py:61-64 | In the prompt, the role follows `"Position or Role: "`, the skills follow a line feed and `"Required Skills: "`, and the rendered experience follows a line feed and `"Minimum Working Experience: "`. Each appears unchanged. `" years" + "\n" + "Resume Content: "` follows the rendered experience and ends the header. |
| `Prompt.IntToDecimalHasNoSpace` | main.py:64 | The rendered experience holds only a minus sign and digits, never a space. |
| `Prompt.HeaderDeterminesExperience` | main.py:64 | Two headers with the same role and skills that both begin one text have the same experience figure, because the figure ends where `" years"` begins. |
| `Prompt.BuildDeterminesExperienceAndText` | main.py:61-67 | For fixed role and skills, equal prompts have equal experience figures and equal resume texts. |
| `Prompt.ResumeTextRoundTrip` | main.py:61-67 | Given the criteria, the resume text can be read back out of the prompt built from it. |
| `Prompt.BuildDistinguishesResumes` | main.py:61-67 | For fixed criteria, two different resume texts never give the same prompt. |
| `Pipeline.MapInOrderPositional` | main.py:49-73 | Building a list by appending `f(x)` for each element `x` in order, as both loops do, gives one entry per element. Entry `i` is `f` of element `i`. Nothing is dropped, merged or reordered. |
| `Pipeline.BuildPrompts` | main.py:49-68 | The first loop's list equals the prompt builder applied to each upload in upload order. There is one prompt per upload, and prompt `i` is built from the criteria and upload `i`'s extracted text. |
| `Pipeline.Dispatch` | main.py:70-73 | The second loop's list equals `generateContent` applied to each prompt in order. There is one response per prompt, and `responses[i] == generateContent(prompts[i])`. |
| `Pipeline.AnalyzeResumes` | main.py:49-75 | The payload's `results` has one entry per upload. Entry `i` is the service's answer to the prompt built from upload `i`. The list is returned unfiltered and in the same order. |
| `Pipeline.PromptCarriesUploadText` | main.py:51-67 | The prompt built for an upload carries exactly that upload's extracted text. |

## Left out

- HTTP layer: the web framework, routing, form and file binding, the asynchronous read of each upload, JSON serialisation and server startup. These are framework plumbing.
- Environment and credential loading, configuring the text-generation client, and the global client object. These are process setup with module-level state.
- PDF and Word parsing: the parsing libraries are foreign code. An `Upload` supplies the page and paragraph texts they would return for the file's bytes.
- A missing content type (`None` in the framework) is not modelled separately. It behaves like any unrecognised media-type string, which the model covers.
- Errors raised by the parsers or by the call to the service: the code has no handling of its own and lets them propagate, so there is no error path to model.
- The service's output: `generateContent` is an arbitrary function and nothing is claimed about what it returns. Because it is a function, this Dafny model assumes the same prompt always gets the same answer within one request. The real service need not behave that way.
- Characters are Unicode scalar values. Python strings that hold lone surrogates have no counterpart.
