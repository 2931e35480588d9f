/** The on-device language model, seen from outside: whether the API exists
    and what `availability()` answered, and a session as an oracle from a
    prompt to its answer. `None` stands for a failed call (or, for topic
    extraction, one that missed its 10-second deadline). The model's answers
    are otherwise unconstrained.

    A prompt is given to the oracle as the values it is built from, tagged
    with its kind; `PromptText` is the text the session receives. An oracle
    on texts is one on prompts that factors through `PromptText`, so what is
    proved here for every oracle holds for it too. */
module LanguageModel {
  import opened Wrappers
  import opened Text

  /** The prompts the extension sends. */
  datatype Prompt =
    | TopicQuestion(title: string, headings: string, text: string)    // `TabGrouper.extractTopic`
    | SameSubject(topic1: string, topic2: string)                      // `TabGrouper.areTopicsSimilar`
    | PageSummary(snippet: string)                                     // `ContextManager.generateSummary`
    | BriefSummary(excerpt: string)                                    // `AIProcessor.summarize`
    | RephraseText(excerpt: string)                                    // `AIProcessor.rephrase`
    | FixErrors(excerpt: string)                                       // `AIProcessor.proofread`
    | TranslateTo(language: string, excerpt: string)                   // `AIProcessor.translate`

  /** The text of each prompt. */
  function PromptText(p: Prompt): string {
    match p
    case TopicQuestion(title, headings, text) =>
      "In 3-5 words, what is the SPECIFIC topic of this webpage? Be precise.\n\n"
        + Trim("\nTitle: " + title + "\nHeadings: " + Or(headings, "None") + "\nContent: " + Take(text, 300) + "\n")
        + "\n\nTopic:"
    case SameSubject(t1, t2) =>
      "Are these two topics about the same specific subject? Answer only YES or NO.\n\nTopic 1: "
        + t1 + "\nTopic 2: " + t2 + "\n\nAnswer:"
    case PageSummary(snippet) => "In 2 sentences, what is this page about:\n" + Take(snippet, 400)
    case BriefSummary(excerpt) => "Summarize briefly:\n" + excerpt
    case RephraseText(excerpt) => "Rephrase:\n" + excerpt
    case FixErrors(excerpt) => "Fix errors:\n" + excerpt
    case TranslateTo(language, excerpt) => "Translate this text to " + language + ":\n\n" + excerpt
  }

  /** `session.prompt(text)`. */
  type Oracle = Prompt -> Option<string>

  /** `LanguageModel.availability()`; `None` when `LanguageModel` is undefined. */
  type Availability = Option<string>

  /** The test of the tab grouper and of `AIProcessor.initialize`. */
  predicate IsReady(a: Availability) {
    a == Some("available") || a == Some("readily")
  }
}
