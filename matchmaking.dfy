/**
 * The parts of the matchmaking flow (src/ai/flows/ai-powered-matchmaking.ts) that run
 * locally: the `shouldEmphasizeSkill` tool's test and the rendering of the prompt template.
 * The model call itself is not part of this model.
 */
module Matchmaking {
  import opened Wrappers
  import opened Text

  /** The flow's input: skill and interest lists, free-text project needs, an optional skill to emphasize. */
  datatype MatchmakingInput = MatchmakingInput(
    userSkills: seq<string>,
    userInterests: seq<string>,
    projectNeeds: string,
    emphasizeSkill: Option<string>)

  // ---------------------------------------------------------------------------
  // the shouldEmphasizeSkill tool
  // ---------------------------------------------------------------------------

  /**
   * `projectNeeds.toLowerCase().includes(skill.toLowerCase())`: the skill, case folded,
   * occurs as a contiguous piece of the case-folded project needs.
   */
  function ShouldEmphasizeSkill(skill: string, projectNeeds: string): (b: bool)
    ensures b <==> exists i :: OccursAt(Lower(projectNeeds), Lower(skill), i)
  {
    Includes(Lower(projectNeeds), Lower(skill))
  }

  /** `a` and `b` differ at most in the case of ASCII letters. */
  predicate SameUpToCase(a: string, b: string)
  {
    && |a| == |b|
    && forall i :: 0 <= i < |a| ==>
         || a[i] == b[i]
         || ('A' <= a[i] <= 'Z' && b[i] as int == a[i] as int + 32)
         || ('A' <= b[i] <= 'Z' && a[i] as int == b[i] as int + 32)
  }

  /** Changing the letter case of either argument does not change the answer. */
  lemma EmphasisIgnoresCase(skill: string, needs: string, skill': string, needs': string)
    requires SameUpToCase(skill, skill') && SameUpToCase(needs, needs')
    ensures ShouldEmphasizeSkill(skill, needs) == ShouldEmphasizeSkill(skill', needs')
  {
    forall a: string, b: string | SameUpToCase(a, b) ensures Lower(a) == Lower(b) {
      forall i | 0 <= i < |a| ensures Lower(a)[i] == Lower(b)[i] {
        assert LowerChar(a[i]) == LowerChar(b[i]);
      }
    }
  }

  /** The empty skill occurs in every text, so it is always reported relevant. */
  lemma EmptySkillAlwaysRelevant(needs: string)
    ensures ShouldEmphasizeSkill([], needs)
  {
    assert OccursAt(Lower(needs), Lower([]), 0);
  }

  /** A skill occurring verbatim in the project needs is relevant. */
  lemma VerbatimSkillRelevant(skill: string, needs: string, i: nat)
    requires OccursAt(needs, skill, i)
    ensures ShouldEmphasizeSkill(skill, needs)
  {
    assert Lower(needs)[i..i + |skill|] == Lower(skill);
    assert OccursAt(Lower(needs), Lower(skill), i);
  }

  // ---------------------------------------------------------------------------
  // the prompt template
  // ---------------------------------------------------------------------------

  /**
   * `{{#each items}}{{{this}}}{{#unless @last}}, {{/unless}}{{/each}}`, from item `i` on:
   * each item verbatim, followed by ", " unless it is the last one. This renders exactly
   * `items.join(", ")`: in order, each once, nothing after the last, nothing for no items.
   */
  function EachUnlessLast(items: seq<string>, i: nat): (r: string)
    requires i <= |items|
    ensures r == JoinWith(items[i..], ", ")
    decreases |items| - i
  {
    if i == |items| then []
    else
      assert items[i..][1..] == items[i + 1..];
      assert i == |items| - 1 ==> items[i..] == [items[i]];
      items[i] + (if i == |items| - 1 then [] else ", ") + EachUnlessLast(items, i + 1)
  }

  /** How Handlebars treats `{{#if emphasizeSkill}}`: absent and empty strings are false. */
  predicate Truthy(e: Option<string>)
  {
    e.Some? && e.value != []
  }

  // The fixed lines are written as their opening words and the rest of the sentence, so that
  // how each line opens can be read off without unfolding the whole sentence.
  const Intro := "You" + " are an AI-powered matchmaking engine for a student project platform called NexusConnect."
  const SkillsLead := "  User Skills: "
  const InterestsLead := "  User Interests: "
  const NeedsLead := "  Project Needs: "
  const Step1 := "  1. " + "Analyze the user's skills, interests, and the project needs."
  const Step2 := "  2. " + "Identify 3-5 plausible-sounding, fictional student names as potential collaborators. These collaborators should have skills and interests relevant to the project."
  const Step3 := "  3. " + "Explain your reasoning for suggesting these collaborators in a friendly and helpful tone."
  const Step4Lead := "  4. " + "The user wants to emphasize the skill: '"
  const Closing := "  Y" + "our entire response must be in the structured JSON format defined by the output schema."

  const Step4Middle := "'. Use the 'shouldEmphasizeSkill' tool to check if this skill is relevant to the project needs. If the tool returns true, make sure your suggestions strongly reflect this by suggesting collaborators who are experts in '"
  const Step4End := "' and mention this in your reasoning."

  /** Instruction step 4: it opens with its number and names the skill at both of its slots. */
  function Step4(skill: string): (line: string)
    ensures IsStep4(line)
    ensures OccursAt(line, skill, |Step4Lead|)
    ensures OccursAt(line, skill, |Step4Lead| + |skill| + |Step4Middle|)
  {
    SkillTwice(Step4Lead, skill, Step4Middle, Step4End);
    Step4Lead + skill + Step4Middle + skill + Step4End
  }

  /** A line built like step 4 opens like its lead and holds the skill at both slots. */
  lemma SkillTwice(lead: string, skill: string, middle: string, end: string)
    requires "  4. " <= lead
    ensures var line := lead + skill + middle + skill + end;
      && IsStep4(line)
      && OccursAt(line, skill, |lead|)
      && OccursAt(line, skill, |lead| + |skill| + |middle|)
  {
    var line := lead + skill + middle + skill + end;
    var n, m := |lead|, |lead| + |skill| + |middle|;
    assert line == lead + skill + (middle + skill + end);
    assert line[..5] == lead[..5];
    assert line[n..n + |skill|] == skill;
    assert line == (lead + skill + middle) + skill + end;
    assert line[m..m + |skill|] == skill;
  }

  /** The template up to instruction step 3: the three filled-in slots and the fixed lines around them. */
  function PromptHead(input: MatchmakingInput): (lines: seq<string>)
    ensures |lines| == 10
  {
    [ Intro,
      "",
      SkillsLead + EachUnlessLast(input.userSkills, 0),
      InterestsLead + EachUnlessLast(input.userInterests, 0),
      NeedsLead + input.projectNeeds,
      "",
      "  Instructions:",
      Step1,
      Step2,
      Step3 ]
  }

  /**
   * `{{#if emphasizeSkill}} ... {{/if}}`: the lines holding only the block tags are
   * standalone and leave nothing behind, so the block is step 4 or nothing.
   */
  function EmphasisBlock(e: Option<string>): (lines: seq<string>)
    ensures |lines| == if Truthy(e) then 1 else 0
  {
    if Truthy(e) then [Step4(e.value)] else []
  }

  const PromptTail := [ "  ", Closing, "  " ]

  /**
   * The lines the template writes: ten before the `#if` block, the block, three after it.
   * A slot value holding a line break is not split here, so it makes more lines in the text.
   */
  function PromptLines(input: MatchmakingInput): (lines: seq<string>)
    ensures |lines| == if Truthy(input.emphasizeSkill) then 14 else 13
  {
    PromptHead(input) + EmphasisBlock(input.emphasizeSkill) + PromptTail
  }

  /** The prompt text handed to the model; it opens with the fixed introduction. */
  function Prompt(input: MatchmakingInput): (text: string)
    ensures Intro <= text
  {
    JoinWith(PromptLines(input), "\n")
  }

  /**
   * The skills and interests lines list their items in order joined by ", " (nothing after
   * the last), and the project needs follow their label verbatim.
   */
  lemma PromptSlots(input: MatchmakingInput)
    ensures PromptLines(input)[2] == SkillsLead + JoinWith(input.userSkills, ", ")
    ensures PromptLines(input)[3] == InterestsLead + JoinWith(input.userInterests, ", ")
    ensures PromptLines(input)[4] == NeedsLead + input.projectNeeds
  {
    assert input.userSkills[0..] == input.userSkills;
    assert input.userInterests[0..] == input.userInterests;
  }

  /** A line that opens instruction step 4. */
  predicate IsStep4(line: string)
  {
    "  4. " <= line
  }

  /** A line that opens with step 4's number: one of the slot labels or fixed lines can never be one. */
  lemma NotStep4(lead: string, rest: string)
    requires |lead| >= 3 && lead[2] != '4'
    ensures !IsStep4(lead + rest)
  {
    assert (lead + rest)[2] == lead[2];
  }

  /** No line of the template outside the `#if` block opens step 4. */
  lemma FixedLinesAreNotStep4(input: MatchmakingInput)
    ensures forall k :: 0 <= k < 10 ==> !IsStep4(PromptHead(input)[k])
    ensures forall k :: 0 <= k < 3 ==> !IsStep4(PromptTail[k])
  {
    var head := PromptHead(input);
    NotStep4("You", Intro[3..]);
    assert "You" + Intro[3..] == Intro;
    NotStep4(SkillsLead, EachUnlessLast(input.userSkills, 0));
    NotStep4(InterestsLead, EachUnlessLast(input.userInterests, 0));
    NotStep4(NeedsLead, input.projectNeeds);
    NotStep4("  Instructions:", []);
    assert "  Instructions:" + [] == "  Instructions:";
    NotStep4("  1. ", Step1[5..]);
    assert "  1. " + Step1[5..] == Step1;
    NotStep4("  2. ", Step2[5..]);
    assert "  2. " + Step2[5..] == Step2;
    NotStep4("  3. ", Step3[5..]);
    assert "  3. " + Step3[5..] == Step3;
    NotStep4("  Y", Closing[3..]);
    assert "  Y" + Closing[3..] == Closing;
  }

  /**
   * Among the lines the template writes, one opening instruction step 4 is there exactly
   * when the skill to emphasize is present and not empty, and then it names that skill.
   * Slot values are inserted as they are: one holding a line break adds lines of its own.
   */
  lemma StepFourIffEmphasis(input: MatchmakingInput)
    ensures (exists k :: 0 <= k < |PromptLines(input)| && IsStep4(PromptLines(input)[k]))
            <==> Truthy(input.emphasizeSkill)
    ensures Truthy(input.emphasizeSkill) ==>
      var line := PromptLines(input)[10];
      && IsStep4(line)
      && OccursAt(line, input.emphasizeSkill.value, |Step4Lead|)
  {
    var lines := PromptLines(input);
    var head := PromptHead(input);
    var block := EmphasisBlock(input.emphasizeSkill);
    FixedLinesAreNotStep4(input);
    forall k | 0 <= k < |lines| && k != 10
      ensures !IsStep4(lines[k])
    {
      if k < 10 {
        assert lines[k] == head[k];
      } else if Truthy(input.emphasizeSkill) {
        assert lines[k] == PromptTail[k - 11];
      } else {
        assert lines[k] == PromptTail[k - 10];
      }
    }
    if Truthy(input.emphasizeSkill) {
      assert lines[10] == Step4(input.emphasizeSkill.value);
    } else {
      assert lines[10] == PromptTail[0];
    }
  }

  /** Example: "Rust" is not relevant to "We need Figma and React". */
  lemma RustExample()
    ensures !ShouldEmphasizeSkill("Rust", "We need Figma and React")
  {
    var needs := "We need Figma and React";
    var skill := Lower("Rust");
    assert skill[1] == 'u';
    assert 'u' !in needs && 'U' !in needs;
    forall j | 0 <= j < |needs| ensures Lower(needs)[j] != 'u' {
      assert needs[j] in needs;
    }
    forall i | 0 <= i <= |needs| - |skill| ensures !OccursAt(Lower(needs), skill, i) {
      assert Lower(needs)[i..i + |skill|][1] == Lower(needs)[i + 1];
    }
  }

  /** Example: "Figma" is relevant to "We need Figma and React". */
  lemma FigmaExample()
    ensures ShouldEmphasizeSkill("Figma", "We need Figma and React")
  {
    VerbatimSkillRelevant("Figma", "We need Figma and React", 8);
  }
}
