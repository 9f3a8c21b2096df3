/**
 * The prompt expander: one fixed template around the user's idea. It accepts
 * every string and has no effects.
 */
module Expander {
  import opened Wrappers
  import opened Schema
  import opened Templates

  const ExpansionPrefix: string := "A highly detailed, photorealistic image of "
  const ExpansionSuffix: string := ", with dramatic lighting, vibrant colors, and artistic composition. Professional photography style with shallow depth of field, captured with a high-end camera."

  /** The expanded prompt: the fixed prefix, the idea verbatim, the fixed suffix. */
  function ExpandPrompt(userIdea: string): (r: ExpandedPromptResponse)
    ensures |r.expanded_prompt| == |ExpansionPrefix| + |userIdea| + |ExpansionSuffix|
    ensures |r.expanded_prompt| > |userIdea|
    ensures Contains(r.expanded_prompt, userIdea)
    ensures Unfill(ExpansionPrefix, ExpansionSuffix, r.expanded_prompt) == Some(userIdea)
  {
    FillContainsBody(ExpansionPrefix, userIdea, ExpansionSuffix);
    UnfillFill(ExpansionPrefix, userIdea, ExpansionSuffix);
    ExpandedPromptResponse(Fill(ExpansionPrefix, userIdea, ExpansionSuffix))
  }

  /** Distinct ideas expand to distinct prompts. */
  lemma ExpandPromptInjective(a: string, b: string)
    ensures ExpandPrompt(a) == ExpandPrompt(b) ==> a == b
  {
    FillInjective(ExpansionPrefix, a, b, ExpansionSuffix);
  }
}
