/** The keyword responder of `core/responder.py`: a fixed reply for a blank
    prompt, then an ordered first match over the book's chapter titles.

    The book loaded at import time is a parameter; a failed load leaves it
    with no chapters. */
module Responder {
  import opened Wrappers
  import opened Text

  /** A chapter of the book; a key missing from the chapter is None. */
  datatype Chapter = Chapter(title: Option<string>, content: Option<string>)

  /** `ch.get("title", "")` and `ch.get("content", "")`. */
  function TitleOf(ch: Chapter): string { ch.title.GetOr("") }
  function ContentOf(ch: Chapter): string { ch.content.GetOr("") }

  const EmptyPromptReply: string := "Please enter a question."
  const FallbackReply: string := "This is a Beta AI demo. Try: 'What is Universal Inquiry?' or 'How do habits form?'"

  /** The lowercased title of `ch` contains `keyword`. */
  predicate TitleMentions(ch: Chapter, keyword: string) {
    Contains(Lower(TitleOf(ch)), keyword)
  }

  /** The first chapter whose lowercased title contains `keyword`. */
  function FirstTitled(chapters: seq<Chapter>, keyword: string): (r: Option<nat>)
    ensures r.Some? ==> r.value < |chapters| && TitleMentions(chapters[r.value], keyword)
    ensures r.Some? ==> forall j :: 0 <= j < r.value ==> !TitleMentions(chapters[j], keyword)
    ensures r.None? <==> forall j :: 0 <= j < |chapters| ==> !TitleMentions(chapters[j], keyword)
    decreases |chapters|
  {
    if chapters == [] then None
    else if TitleMentions(chapters[0], keyword) then Some(0)
    else
      var rest := FirstTitled(chapters[1..], keyword);
      assert forall j :: 1 <= j < |chapters| ==> chapters[j] == chapters[1..][j - 1];
      match rest
      case None => None
      case Some(k) => Some(k + 1)
  }

  /** `get_response(prompt)` against the book's chapters. */
  function GetResponse(prompt: string, chapters: seq<Chapter>): string {
    if Strip(prompt) == "" then EmptyPromptReply
    else
      var p := Lower(prompt);
      var inquiry := if Contains(p, "inquiry") || Contains(p, "universal") then FirstTitled(chapters, "inquiry") else None;
      if inquiry.Some? then ContentOf(chapters[inquiry.value])
      else
        var habit := if Contains(p, "habit") then FirstTitled(chapters, "habit") else None;
        if habit.Some? then ContentOf(chapters[habit.value])
        else FallbackReply
  }

  // ---------------------------------------------------------------------
  // Properties

  /** The first chapter mentioning `keyword` is the one `FirstTitled` finds. */
  lemma FirstTitledIs(chapters: seq<Chapter>, keyword: string, i: nat)
    requires i < |chapters| && TitleMentions(chapters[i], keyword)
    requires forall j :: 0 <= j < i ==> !TitleMentions(chapters[j], keyword)
    ensures FirstTitled(chapters, keyword) == Some(i)
  {
  }

  /** A blank or whitespace-only prompt gets the fixed request for a question. */
  lemma BlankPromptAsksForQuestion(prompt: string, chapters: seq<Chapter>)
    requires IsBlank(prompt)
    ensures GetResponse(prompt, chapters) == EmptyPromptReply
  {
  }

  /** An inquiry keyword returns the first chapter titled with "inquiry",
      whether or not the prompt also mentions habits. */
  lemma InquiryComesFirst(prompt: string, chapters: seq<Chapter>, i: nat)
    requires !IsBlank(prompt)
    requires Contains(Lower(prompt), "inquiry") || Contains(Lower(prompt), "universal")
    requires i < |chapters| && TitleMentions(chapters[i], "inquiry")
    requires forall j :: 0 <= j < i ==> !TitleMentions(chapters[j], "inquiry")
    ensures GetResponse(prompt, chapters) == ContentOf(chapters[i])
  {
    FirstTitledIs(chapters, "inquiry", i);
  }

  /** With an inquiry keyword but no chapter to match it, the habit check still runs. */
  lemma InquiryFallsThroughToHabit(prompt: string, chapters: seq<Chapter>, i: nat)
    requires !IsBlank(prompt)
    requires forall j :: 0 <= j < |chapters| ==> !TitleMentions(chapters[j], "inquiry")
    requires Contains(Lower(prompt), "habit")
    requires i < |chapters| && TitleMentions(chapters[i], "habit")
    requires forall j :: 0 <= j < i ==> !TitleMentions(chapters[j], "habit")
    ensures GetResponse(prompt, chapters) == ContentOf(chapters[i])
  {
    assert FirstTitled(chapters, "inquiry") == None;
    FirstTitledIs(chapters, "habit", i);
  }

  /** A prompt mentioning neither inquiry nor universal, but habits, returns
      the first chapter titled with "habit". */
  lemma HabitReturnsFirstHabitChapter(prompt: string, chapters: seq<Chapter>, i: nat)
    requires !IsBlank(prompt)
    requires !Contains(Lower(prompt), "inquiry") && !Contains(Lower(prompt), "universal")
    requires Contains(Lower(prompt), "habit")
    requires i < |chapters| && TitleMentions(chapters[i], "habit")
    requires forall j :: 0 <= j < i ==> !TitleMentions(chapters[j], "habit")
    ensures GetResponse(prompt, chapters) == ContentOf(chapters[i])
  {
    FirstTitledIs(chapters, "habit", i);
  }

  /** No keyword of the prompt finds a chapter: neither the inquiry branch
      (when "inquiry" or "universal" occurs) nor the habit branch (when
      "habit" occurs). */
  predicate NothingMatches(prompt: string, chapters: seq<Chapter>) {
    var p := Lower(prompt);
    && (Contains(p, "inquiry") || Contains(p, "universal") ==>
          forall j :: 0 <= j < |chapters| ==> !TitleMentions(chapters[j], "inquiry"))
    && (Contains(p, "habit") ==>
          forall j :: 0 <= j < |chapters| ==> !TitleMentions(chapters[j], "habit"))
  }

  /** A non-blank prompt gets the beta-demo fallback when nothing matches,
      and otherwise the content of a chapter that matched one of its keywords. */
  lemma FallbackWhenNothingMatches(prompt: string, chapters: seq<Chapter>)
    requires !IsBlank(prompt)
    ensures NothingMatches(prompt, chapters) ==> GetResponse(prompt, chapters) == FallbackReply
    ensures !NothingMatches(prompt, chapters) ==>
      exists j :: 0 <= j < |chapters| && GetResponse(prompt, chapters) == ContentOf(chapters[j]) &&
        (TitleMentions(chapters[j], "inquiry") || TitleMentions(chapters[j], "habit"))
  {
    var r := GetResponse(prompt, chapters);
    var p := Lower(prompt);
    var inquiry := if Contains(p, "inquiry") || Contains(p, "universal") then FirstTitled(chapters, "inquiry") else None;
    var habit := if Contains(p, "habit") then FirstTitled(chapters, "habit") else None;
    if inquiry.Some? {
      assert r == ContentOf(chapters[inquiry.value]);
    } else if habit.Some? {
      assert r == ContentOf(chapters[habit.value]);
    }
  }

  /** Every reply is one of the two fixed messages or some chapter's content
      ("" for a chapter without content). */
  lemma ReplyIsKnown(prompt: string, chapters: seq<Chapter>)
    ensures var r := GetResponse(prompt, chapters);
      || r == EmptyPromptReply || r == FallbackReply
      || exists j :: 0 <= j < |chapters| && r == ContentOf(chapters[j])
  {
    var r := GetResponse(prompt, chapters);
    if !IsBlank(prompt) {
      var p := Lower(prompt);
      var inquiry := if Contains(p, "inquiry") || Contains(p, "universal") then FirstTitled(chapters, "inquiry") else None;
      var habit := if Contains(p, "habit") then FirstTitled(chapters, "habit") else None;
      if inquiry.Some? {
        assert r == ContentOf(chapters[inquiry.value]);
      } else if habit.Some? {
        assert r == ContentOf(chapters[habit.value]);
      }
    }
  }

  /** A habit prompt whose first habit-titled chapter has no content key gets
      "", provided no inquiry-titled chapter answers first. */
  lemma MissingContentIsEmpty(prompt: string, chapters: seq<Chapter>, i: nat)
    requires !IsBlank(prompt) && Contains(Lower(prompt), "habit")
    requires (!Contains(Lower(prompt), "inquiry") && !Contains(Lower(prompt), "universal"))
             || FirstTitled(chapters, "inquiry").None?
    requires FirstTitled(chapters, "habit") == Some(i) && i < |chapters| && chapters[i].content.None?
    ensures GetResponse(prompt, chapters) == ""
  {
  }

  /** With no chapters at all, every non-blank prompt gets the fallback. */
  lemma NoBookGivesFallback(prompt: string)
    requires !IsBlank(prompt)
    ensures GetResponse(prompt, []) == FallbackReply
  {
  }
}
