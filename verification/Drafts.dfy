/** The message composer of the web page: one input field in front of a
  * separate draft for every agent and recipient. */
module Drafts {
  import opened Options
  import opened Text

  /** What the page shows: the agent it works for (one part for the local
    * proxy, three for a remote one), the open private tab or "", and the
    * recipient chosen for the other tabs. */
  datatype Context = Context(scope: seq<string>, privatePeer: string, chatRecipient: string)
  datatype Key = Key(scope: seq<string>, recipient: string)

  function KeyOf(c: Context): Key {
    Key(c.scope, if c.privatePeer != "" then "private:" + c.privatePeer else c.chatRecipient)
  }

  /** Two contexts share a draft exactly when they are for the same agent and
    * partner; a private tab also meets a chosen recipient spelled like it. */
  lemma KeysMeet(a: Context, b: Context)
    ensures KeyOf(a) == KeyOf(b) <==>
      && a.scope == b.scope
      && if a.privatePeer == "" && b.privatePeer == "" then a.chatRecipient == b.chatRecipient
         else if a.privatePeer == "" then a.chatRecipient == "private:" + b.privatePeer
         else if b.privatePeer == "" then b.chatRecipient == "private:" + a.privatePeer
         else a.privatePeer == b.privatePeer
  {
    var mark := "private:";
    assert forall peer :: (mark + peer)[|mark|..] == peer;
    assert mark + a.privatePeer == mark + b.privatePeer <==> a.privatePeer == b.privatePeer by {
      assert (mark + a.privatePeer)[|mark|..] == a.privatePeer;
      assert (mark + b.privatePeer)[|mark|..] == b.privatePeer;
    }
  }

  /** How a submission ended: whether it was accepted (neither refused nor
    * interrupted by an exception) and the context the page shows after it,
    * as a command may have opened another tab. */
  datatype Outcome = Outcome(accepted: bool, context: Context)

  class Composer {
    var drafts: map<Key, string>
    var draftKey: Option<Key>
    var input: string

    /** The text a recipient's composer holds, on screen or put away. */
    function Draft(key: Key): string
      reads this
    {
      if draftKey == Some(key) then input
      else if key in drafts then drafts[key] else ""
    }

    /** No empty draft is kept. */
    predicate Valid()
      reads this
    {
      forall key <- drafts :: drafts[key] != ""
    }

    constructor ()
      ensures Valid() && draftKey == None && forall key :: Draft(key) == ""
    {
      drafts, draftKey, input := map[], None, "";
    }

    method Type(text: string)
      requires draftKey.Some?
      requires Valid()
      modifies this`input
      ensures Valid() && Draft(draftKey.value) == text
      ensures forall key :: Some(key) != draftKey ==> Draft(key) == old(Draft(key))
    {
      input := text;
    }

    /** Shows the draft of the context in view. Nobody's text changes. */
    method SyncComposerDraft(context: Context) returns (changed: bool)
      requires Valid()
      modifies this
      ensures Valid()
      ensures draftKey == Some(KeyOf(context)) && input == Draft(KeyOf(context))
      ensures forall key :: Draft(key) == old(Draft(key))
      ensures changed <==> old(draftKey).Some? && old(draftKey) != draftKey
    {
      var previous := draftKey;
      var next := KeyOf(context);
      if previous == Some(next) {
        return false;
      }
      if previous.Some? {
        if input != "" {
          drafts := drafts[previous.value := input];
        } else {
          drafts := drafts - {previous.value};
        }
      }
      draftKey := Some(next);
      input := if next in drafts then drafts[next] else "";
      return previous.Some?;
    }

    /** Sends what the input shows. `submitted` is what was handed on: the
      * text of the context in view, never of one the page has left. An
      * accepted submission empties that recipient's composer only, even
      * when its command opened another; any other changes no text. */
    method SubmitMessage(context: Context, canSubmit: bool, outcome: Outcome) returns (submitted: Option<string>)
      requires Valid()
      modifies this
      ensures Valid()
      ensures submitted.Some? <==> (old(draftKey) == None || old(draftKey) == Some(KeyOf(context)))
                                   && canSubmit && Trim(old(Draft(KeyOf(context)))) != ""
      ensures submitted.Some? ==> submitted.value == Trim(old(Draft(KeyOf(context))))
      ensures draftKey == Some(KeyOf(if submitted.Some? then outcome.context else context))
      ensures submitted.Some? && outcome.accepted ==> Draft(KeyOf(context)) == ""
      ensures forall key ::
        !(submitted.Some? && outcome.accepted && key == KeyOf(context)) ==> Draft(key) == old(Draft(key))
    {
      var switched := SyncComposerDraft(context);
      if switched {
        return None;
      }
      var submittedKey := KeyOf(context);
      if Trim(input) == "" || !canSubmit {
        return None;
      }
      submitted := Some(Trim(input));
      var _ := SyncComposerDraft(outcome.context);
      if outcome.accepted {
        drafts := drafts - {submittedKey};
        if draftKey == Some(submittedKey) {
          input := "";
        }
      }
    }
  }

  // ----- Whole sessions ---------------------------------------------------------

  datatype Event =
    | Typed(text: string)
    | Viewed(context: Context)
    | Submitted(context: Context, canSubmit: bool, outcome: Outcome)

  /** The reference: a text for every key and the key in view. */
  datatype Page = Page(texts: map<Key, string>, key: Option<Key>)

  function TextIn(page: Page, key: Key): string {
    if key in page.texts then page.texts[key] else ""
  }

  function Sends(page: Page, e: Event): bool
    requires e.Submitted?
  {
    && (page.key == None || page.key == Some(KeyOf(e.context)))
    && e.canSubmit && Trim(TextIn(page, KeyOf(e.context))) != ""
  }

  function Next(page: Page, e: Event): Page {
    match e
    case Typed(text) =>
      if page.key.None? then page else page.(texts := page.texts[page.key.value := text])
    case Viewed(context) => page.(key := Some(KeyOf(context)))
    case Submitted(context, canSubmit, outcome) =>
      if !Sends(page, e) then page.(key := Some(KeyOf(context)))
      else Page(if outcome.accepted then page.texts[KeyOf(context) := ""] else page.texts, Some(KeyOf(outcome.context)))
  }

  function After(page: Page, events: seq<Event>): Page {
    if events == [] then page else Next(After(page, events[..|events| - 1]), events[|events| - 1])
  }

  /** The event can change the text of `key`: typing into it, or sending it. */
  predicate Touches(page: Page, e: Event, key: Key) {
    match e
    case Typed(_) => page.key == Some(key)
    case Viewed(_) => false
    case Submitted(context, _, outcome) => KeyOf(context) == key && Sends(page, e) && outcome.accepted
  }

  lemma UntouchedStays(page: Page, e: Event, key: Key)
    requires !Touches(page, e, key)
    ensures TextIn(Next(page, e), key) == TextIn(page, key)
  {
    hide Trim;
  }

  /** Through any stretch of a session in which nobody types into `key` and
    * nothing of it is sent, its text survives, however often the page moves
    * between agents, tabs and recipients. */
  lemma {:induction false} DraftSurvives(page: Page, events: seq<Event>, key: Key)
    requires forall i {:trigger events[i]} :: 0 <= i < |events| ==> !Touches(After(page, events[..i]), events[i], key)
    ensures TextIn(After(page, events), key) == TextIn(page, key)
    decreases |events|
  {
    hide Next, Touches, TextIn;
    if events != [] {
      var n := |events| - 1;
      var front := events[..n];
      forall i {:trigger front[i]} | 0 <= i < n
        ensures !Touches(After(page, front[..i]), front[i], key)
      {
        assert front[..i] == events[..i] && front[i] == events[i];
      }
      DraftSurvives(page, front, key);
      UntouchedStays(After(page, front), events[n], key);
    }
  }

  /** The composer shows the reference at every moment. */
  method Play(events: seq<Event>) returns (composer: Composer, ghost page: Page)
    ensures page == After(Page(map[], None), events)
    ensures composer.draftKey == page.key
    ensures forall key :: composer.Draft(key) == TextIn(page, key)
  {
    composer := new Composer();
    page := Page(map[], None);
    assert events[..|events|] == events;
    for i := 0 to |events|
      invariant fresh(composer) && composer.Valid()
      invariant page == After(Page(map[], None), events[..i])
      invariant composer.draftKey == page.key
      invariant forall key :: composer.Draft(key) == TextIn(page, key)
    {
      assert events[..i + 1][..i] == events[..i];
      page := Next(page, events[i]);
      match events[i]
      case Typed(text) =>
        if composer.draftKey.Some? {
          composer.Type(text);
        }
      case Viewed(context) =>
        var _ := composer.SyncComposerDraft(context);
      case Submitted(context, canSubmit, outcome) =>
        var _ := composer.SubmitMessage(context, canSubmit, outcome);
    }
  }
}
