/** The evaluation request sent for one resume (main.py, analyze_resumes,
    the instruction block and the prompt f-string): four labelled lines
    followed by a fixed instruction. */
module Prompt {

  import opened Strings

  datatype Option<T> = None | Some(value: T)

  // The five string literals of the instruction block, in source order.
  const EvaluateSentence: string :=
    "Evaluate each resume to determine if the candidate meets the specified role requirements, skills, and working experience."
  const ReportSentence: string :=
    "If all criteria are met, provide a brief report containing only the candidate's name and mobile number"
  const DeterminismSentence: string :=
    "Ensure the evaluation is consistent and deterministic, such that the same resume always yields the same result without any changes. Do not include any additional information."
  const RequirementSentence: string :=
    "If any requirement specified by the user is not fulfilled, do not include that resume in the report Check in Role for every resume if role is not match so do not include that resume. You need most focus on role Do not include any additional information."
  const RoleSentence: string :=
    "Focus on the role specified by the user, and if the role does not match, do not include that resume in the report. Do not include any additional information."

  const InstructionParts: seq<string> :=
    [EvaluateSentence, ReportSentence, DeterminismSentence, RequirementSentence, RoleSentence]

  /** The instruction block: the literals are written next to each other,
      so they are joined with nothing in between (no space after "mobile
      number", none after a sentence-ending period). */
  const Instruction: string := Concat(InstructionParts)

  const RoleLabel: string := "Position or Role: "
  const SkillsLabel: string := "Required Skills: "
  const ExperienceLabel: string := "Minimum Working Experience: "
  const YearsSuffix: string := " years"
  const ResumeLabel: string := "Resume Content: "

  // ---------------------------------------------------------------------
  // Decimal rendering of the experience field (an f-string of an int)

  predicate IsDigit(c: char) { '0' <= c <= '9' }

  predicate AllDigits(s: string) { forall i :: 0 <= i < |s| ==> IsDigit(s[i]) }

  function DigitChar(d: nat): (c: char)
    requires d < 10
    ensures IsDigit(c)
  {
    ('0' as int + d) as char
  }

  /** Decimal digits of `n`, most significant first, without leading zeros. */
  function NatToDecimal(n: nat): (s: string)
    ensures |s| >= 1 && AllDigits(s)
    ensures s[0] == '0' ==> n == 0 && |s| == 1
    decreases n
  {
    if n < 10 then [DigitChar(n)] else NatToDecimal(n / 10) + [DigitChar(n % 10)]
  }

  /** How Python renders an int: a minus sign for negative values, then
      the decimal digits of the magnitude. */
  function IntToDecimal(n: int): (s: string)
    ensures |s| >= 1
    ensures s[0] == '-' <==> n < 0
  {
    if n < 0 then "-" + NatToDecimal(-n) else NatToDecimal(n)
  }

  /** The number a string of decimal digits denotes. */
  function DigitsValue(s: string): nat
    requires AllDigits(s)
  {
    if s == [] then 0 else 10 * DigitsValue(s[..|s| - 1]) + (s[|s| - 1] as int - '0' as int)
  }

  /** Reads back what IntToDecimal writes; None for anything else. */
  function ParseInt(s: string): Option<int>
  {
    if |s| >= 2 && s[0] == '-' && AllDigits(s[1..]) && s[1] != '0' then Some(0 - DigitsValue(s[1..]))
    else if |s| >= 1 && AllDigits(s) && (s[0] != '0' || |s| == 1) then Some(DigitsValue(s))
    else None
  }

  lemma {:induction false} NatToDecimalValue(n: nat)
    ensures DigitsValue(NatToDecimal(n)) == n
    decreases n
  {
    var s := NatToDecimal(n);
    if n >= 10 {
      NatToDecimalValue(n / 10);
      assert s[..|s| - 1] == NatToDecimal(n / 10);
    }
  }

  /** Rendering the experience figure loses nothing: it parses back to the
      same integer, so distinct figures give distinct text. */
  lemma IntToDecimalRoundTrip(n: int)
    ensures ParseInt(IntToDecimal(n)) == Some(n)
  {
    if n < 0 {
      var digits := NatToDecimal(-n);
      assert ("-" + digits)[1..] == digits;
      NatToDecimalValue(-n);
    } else {
      NatToDecimalValue(n);
    }
  }

  // ---------------------------------------------------------------------
  // The prompt

  /** Where the skills start in a prompt. */
  function SkillsStart(role: string): nat
  {
    |RoleLabel| + |role| + 1 + |SkillsLabel|
  }

  /** Where the rendered experience starts in a prompt. */
  function ExperienceStart(role: string, skills: string): nat
  {
    SkillsStart(role) + |skills| + 1 + |ExperienceLabel|
  }

  /** Number of characters before the resume text in a prompt. */
  function ResumeStart(role: string, skills: string, experience: int): nat
  {
    ExperienceStart(role, skills) + |IntToDecimal(experience)| + |YearsSuffix| + 1 + |ResumeLabel|
  }

  /** The labelled lines that precede the resume text: the role line, the
      skills line, the experience line and the resume label. Its length is
      fixed by the three criteria; HeaderLabels and HeaderFields say where
      each piece sits. */
  function Header(role: string, skills: string, experience: int): (h: string)
    ensures |h| == ResumeStart(role, skills, experience)
  {
    // Grouped as in SevenPiecesInPlace, so the layout lemmas line up piece by piece.
    RoleLabel + (role + (("\n" + SkillsLabel) + (skills + (("\n" + ExperienceLabel)
      + (IntToDecimal(experience) + (YearsSuffix + "\n" + ResumeLabel))))))
  }

  /** Every label of the header sits at its own offset, each after a line
      feed except the first; the experience figure is followed by " years". */
  lemma HeaderLabels(role: string, skills: string, experience: int)
    ensures Header(role, skills, experience)[..|RoleLabel|] == RoleLabel
    ensures Header(role, skills, experience)[|RoleLabel| + |role|..SkillsStart(role)] == "\n" + SkillsLabel
    ensures Header(role, skills, experience)[SkillsStart(role) + |skills|..ExperienceStart(role, skills)]
            == "\n" + ExperienceLabel
    ensures Header(role, skills, experience)[ExperienceStart(role, skills) + |IntToDecimal(experience)|..]
            == YearsSuffix + "\n" + ResumeLabel
  {
    var digits := IntToDecimal(experience);
    SevenPiecesInPlace(RoleLabel, role, "\n" + SkillsLabel, skills, "\n" + ExperienceLabel, digits, YearsSuffix + "\n" + ResumeLabel);
  }

  /** The role, the skills and the rendered experience each appear
      unchanged, right after their labels. */
  lemma HeaderFields(role: string, skills: string, experience: int)
    ensures Header(role, skills, experience)[|RoleLabel|..|RoleLabel| + |role|] == role
    ensures Header(role, skills, experience)[SkillsStart(role)..SkillsStart(role) + |skills|] == skills
    ensures Header(role, skills, experience)[ExperienceStart(role, skills)..ExperienceStart(role, skills) + |IntToDecimal(experience)|]
            == IntToDecimal(experience)
  {
    var digits := IntToDecimal(experience);
    SevenPiecesInPlace(RoleLabel, role, "\n" + SkillsLabel, skills, "\n" + ExperienceLabel, digits, YearsSuffix + "\n" + ResumeLabel);
  }

  /** The prompt built for one resume: the header, the resume text at a
      position fixed by the criteria alone, a line feed, and always the
      same instruction block. */
  function Build(role: string, skills: string, experience: int, resumeText: string): (p: string)
    ensures |p| == ResumeStart(role, skills, experience) + |resumeText| + 1 + |Instruction|
    ensures p[..ResumeStart(role, skills, experience)] == Header(role, skills, experience)
    ensures p[ResumeStart(role, skills, experience)..ResumeStart(role, skills, experience) + |resumeText|] == resumeText
    ensures p[|p| - |Instruction| - 1..] == "\n" + Instruction
  {
    var header := Header(role, skills, experience);
    var body := header + resumeText;
    var tail := "\n" + Instruction;
    SplitAtSeam(body, tail);
    SplitAtSeam(header, resumeText);
    body + tail
  }

  /** Any text that starts with the header carries every label and every
      criterion of that header at the same offsets. */
  lemma HeaderPrefix(p: string, role: string, skills: string, experience: int)
    requires ResumeStart(role, skills, experience) <= |p|
    requires p[..ResumeStart(role, skills, experience)] == Header(role, skills, experience)
    ensures p[..|RoleLabel|] == RoleLabel
    ensures p[|RoleLabel|..|RoleLabel| + |role|] == role
    ensures p[|RoleLabel| + |role|..SkillsStart(role)] == "\n" + SkillsLabel
    ensures p[SkillsStart(role)..SkillsStart(role) + |skills|] == skills
    ensures p[SkillsStart(role) + |skills|..ExperienceStart(role, skills)] == "\n" + ExperienceLabel
    ensures p[ExperienceStart(role, skills)..ExperienceStart(role, skills) + |IntToDecimal(experience)|]
            == IntToDecimal(experience)
    ensures p[ExperienceStart(role, skills) + |IntToDecimal(experience)|..ResumeStart(role, skills, experience)]
            == YearsSuffix + "\n" + ResumeLabel
    ensures p[ExperienceStart(role, skills) + |IntToDecimal(experience)|] == ' '
  {
    var n := ResumeStart(role, skills, experience);
    HeaderLabels(role, skills, experience);
    HeaderFields(role, skills, experience);
    PrefixSlice(p, n, 0, |RoleLabel|);
    PrefixSlice(p, n, |RoleLabel|, |RoleLabel| + |role|);
    PrefixSlice(p, n, |RoleLabel| + |role|, SkillsStart(role));
    PrefixSlice(p, n, SkillsStart(role), SkillsStart(role) + |skills|);
    PrefixSlice(p, n, SkillsStart(role) + |skills|, ExperienceStart(role, skills));
    PrefixSlice(p, n, ExperienceStart(role, skills), ExperienceStart(role, skills) + |IntToDecimal(experience)|);
    PrefixSlice(p, n, ExperienceStart(role, skills) + |IntToDecimal(experience)|, n);
  }

  /** The criteria appear unchanged in the prompt, each right after its
      label: the role after "Position or Role: ", the skills after a line
      feed and "Required Skills: ", the rendered experience after a line
      feed and "Minimum Working Experience: ". */
  lemma BuildFields(role: string, skills: string, experience: int, resumeText: string)
    ensures Build(role, skills, experience, resumeText)[..|RoleLabel|] == RoleLabel
    ensures Build(role, skills, experience, resumeText)[|RoleLabel|..|RoleLabel| + |role|] == role
    ensures Build(role, skills, experience, resumeText)[|RoleLabel| + |role|..SkillsStart(role)] == "\n" + SkillsLabel
    ensures Build(role, skills, experience, resumeText)[SkillsStart(role)..SkillsStart(role) + |skills|] == skills
    ensures Build(role, skills, experience, resumeText)[SkillsStart(role) + |skills|..ExperienceStart(role, skills)]
            == "\n" + ExperienceLabel
    ensures Build(role, skills, experience, resumeText)[ExperienceStart(role, skills)..ExperienceStart(role, skills) + |IntToDecimal(experience)|]
            == IntToDecimal(experience)
    ensures Build(role, skills, experience, resumeText)[ExperienceStart(role, skills) + |IntToDecimal(experience)|..ResumeStart(role, skills, experience)]
            == YearsSuffix + "\n" + ResumeLabel
  {
    HeaderPrefix(Build(role, skills, experience, resumeText), role, skills, experience);
  }

  /** The resume text a prompt carries, given the criteria it was built
      with: what lies between the header and the line feed before the
      instruction. None when the prompt is too short to hold both. */
  function ResumeTextOf(p: string, role: string, skills: string, experience: int): Option<string>
  {
    var start := ResumeStart(role, skills, experience);
    if |p| < start + 1 + |Instruction| then None
    else Some(p[start..|p| - 1 - |Instruction|])
  }

  /** The resume text can be read back out of the prompt built from it. */
  lemma ResumeTextRoundTrip(role: string, skills: string, experience: int, resumeText: string)
    ensures ResumeTextOf(Build(role, skills, experience, resumeText), role, skills, experience) == Some(resumeText)
  {
  }

  /** For fixed criteria, different resume texts never give the same prompt. */
  lemma BuildDistinguishesResumes(role: string, skills: string, experience: int, text1: string, text2: string)
    requires Build(role, skills, experience, text1) == Build(role, skills, experience, text2)
    ensures text1 == text2
  {
    ResumeTextRoundTrip(role, skills, experience, text1);
    ResumeTextRoundTrip(role, skills, experience, text2);
  }

  /** The rendered experience holds no space: only a minus sign and digits. */
  lemma IntToDecimalHasNoSpace(n: int)
    ensures forall k :: 0 <= k < |IntToDecimal(n)| ==> IsDigit(IntToDecimal(n)[k]) || (k == 0 && n < 0)
    ensures forall k :: 0 <= k < |IntToDecimal(n)| ==> IntToDecimal(n)[k] != ' '
  {
    if n < 0 {
      var digits := NatToDecimal(-n);
      forall k | 0 <= k < |"-" + digits|
        ensures ("-" + digits)[k] != ' '
      {
        if k > 0 {
          assert ("-" + digits)[k] == digits[k - 1];
        }
      }
    }
  }

  /** Two headers with the same role and skills that are both prefixes
      of one text have the same experience figure: the figure ends where
      " years" begins, and no figure holds a space. */
  lemma HeaderDeterminesExperience(p: string, role: string, skills: string, e1: int, e2: int)
    requires ResumeStart(role, skills, e1) <= |p| && p[..ResumeStart(role, skills, e1)] == Header(role, skills, e1)
    requires ResumeStart(role, skills, e2) <= |p| && p[..ResumeStart(role, skills, e2)] == Header(role, skills, e2)
    ensures e1 == e2
  {
    var d1 := IntToDecimal(e1);
    var d2 := IntToDecimal(e2);
    HeaderPrefix(p, role, skills, e1);
    HeaderPrefix(p, role, skills, e2);
    IntToDecimalHasNoSpace(e1);
    IntToDecimalHasNoSpace(e2);
    if |d1| < |d2| {
      assert false;
    }
    if |d2| < |d1| {
      assert false;
    }
    assert d1 == d2;
    IntToDecimalRoundTrip(e1);
    IntToDecimalRoundTrip(e2);
  }

  /** For fixed role and skills, the prompt determines the experience
      figure and the resume text. */
  lemma BuildDeterminesExperienceAndText(role: string, skills: string, e1: int, e2: int, text1: string, text2: string)
    requires Build(role, skills, e1, text1) == Build(role, skills, e2, text2)
    ensures e1 == e2 && text1 == text2
  {
    HeaderDeterminesExperience(Build(role, skills, e1, text1), role, skills, e1, e2);
    BuildDistinguishesResumes(role, skills, e1, text1, text2);
  }
}
