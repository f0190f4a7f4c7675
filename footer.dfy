/**
 * The site footer: the newsletter form's validation and the expandable
 * support sections.
 */
module Footer {
  import opened Wrappers
  import opened Text
  import Seqs

  // ---------------------------------------------------------------- the email check

  predicate IsAt(c: char) {
    c == '@'
  }

  /** Matched by `[^\s@]+` once non-empty: no whitespace and no `@`. */
  predicate Plain(t: string) {
    forall k :: 0 <= k < |t| ==> !IsSpace(t[k]) && t[k] != '@'
  }

  /**
   * The newsletter pattern `^[^\s@]+@[^\s@]+\.[^\s@]+$`, read as a shape:
   * a non-empty local part, `@`, a non-empty label, `.`, a non-empty rest,
   * none of the three holding whitespace or `@`.
   */
  ghost predicate MatchesEmailPattern(s: string) {
    exists i, j :: 0 < i && i + 1 < j && j + 1 < |s| && s[i] == '@' && s[j] == '.'
      && Plain(s[..i]) && Plain(s[i + 1..j]) && Plain(s[j + 1..])
  }

  /**
   * The check as a decision: the first `@` is not the first character,
   * nothing before or after it is whitespace or another `@`, and the part
   * after it has a `.` that is neither its first nor its last character.
   */
  predicate ValidEmail(s: string) {
    var i := Seqs.FindIndex(s, IsAt);
    && 0 < i && i + 2 < |s|
    && Plain(s[..i]) && Plain(s[i + 1..])
    && '.' in s[i + 2..|s| - 1]
  }

  /** Two plain pieces around a character that is neither whitespace nor `@` make a plain string. */
  lemma PlainJoin(a: string, x: char, b: string)
    requires Plain(a) && Plain(b) && !IsSpace(x) && x != '@'
    ensures Plain(a + [x] + b)
  {
    var t := a + [x] + b;
    forall k | 0 <= k < |t|
      ensures !IsSpace(t[k]) && t[k] != '@'
    {
      if k > |a| {
        assert t[k] == b[k - |a| - 1];
      }
    }
  }

  /** Every string the decision accepts matches the pattern. */
  lemma ValidEmailSound(s: string)
    requires ValidEmail(s)
    ensures MatchesEmailPattern(s)
  {
    var i := Seqs.FindIndex(s, IsAt);
    var d := s[i + 2..|s| - 1];
    var k :| 0 <= k < |d| && d[k] == '.';
    var j := i + 2 + k;
    assert s[j] == '.';
    assert s[i + 1..j] == s[i + 1..][..j - i - 1];
    assert s[j + 1..] == s[i + 1..][j - i..];
  }

  /** An `@` preceded only by plain characters is the first `@`. */
  lemma FirstAt(s: string, i: nat)
    requires i < |s| && s[i] == '@' && Plain(s[..i])
    ensures Seqs.FindIndex(s, IsAt) == i
  {
    assert forall k :: 0 <= k < i ==> s[k] == s[..i][k];
    Seqs.FindIndexAt(s, IsAt, i);
  }

  /** The label, the dot and the rest together are plain. */
  lemma PlainDomain(s: string, i: nat, j: nat)
    requires i + 1 < j < |s| && s[j] == '.' && Plain(s[i + 1..j]) && Plain(s[j + 1..])
    ensures Plain(s[i + 1..])
  {
    assert s[i + 1..] == s[i + 1..j] + [s[j]] + s[j + 1..];
    PlainJoin(s[i + 1..j], s[j], s[j + 1..]);
  }

  /** Every string the pattern matches is accepted by the decision. */
  lemma ValidEmailComplete(s: string)
    requires MatchesEmailPattern(s)
    ensures ValidEmail(s)
  {
    var i, j :| 0 < i && i + 1 < j && j + 1 < |s| && s[i] == '@' && s[j] == '.'
      && Plain(s[..i]) && Plain(s[i + 1..j]) && Plain(s[j + 1..]);
    FirstAt(s, i);
    PlainDomain(s, i, j);
    assert s[i + 2..|s| - 1][j - i - 2] == '.';
  }

  /** The decision accepts exactly the strings the pattern matches. */
  lemma ValidEmailIff(s: string)
    ensures ValidEmail(s) <==> MatchesEmailPattern(s)
  {
    if ValidEmail(s) {
      ValidEmailSound(s);
    }
    if MatchesEmailPattern(s) {
      ValidEmailComplete(s);
    }
  }

  // ---------------------------------------------------------------- sections

  /** `toggleSection(section)`: the same key closes the open section, any other key opens it instead. */
  function ToggleExpanded(expanded: Option<string>, section: string): (r: Option<string>)
    ensures r == None <==> expanded == Some(section)
    ensures r != None ==> r == Some(section)
  {
    if expanded == Some(section) then None else Some(section)
  }

  /** Toggling the same key twice gives back the previous state. */
  lemma ToggleTwiceRestores(expanded: Option<string>, section: string)
    ensures ToggleExpanded(ToggleExpanded(expanded, section), section) == expanded
      || (expanded.Some? && expanded.value != section && ToggleExpanded(ToggleExpanded(expanded, section), section) == None)
    ensures expanded == None || expanded == Some(section) ==>
      ToggleExpanded(ToggleExpanded(expanded, section), section) == expanded
  {
  }

  /** `link.name.toLowerCase().replace(/\s+/g, '')`: the name's other characters, lower-cased, in order. */
  function SectionKey(name: string): (r: string)
    ensures r == Seqs.Filter(Lower(name), NotSpace)
    ensures forall c :: c in r <==> c in Lower(name) && !IsSpace(c)
    ensures forall i :: 0 <= i < |r| ==> !('A' <= r[i] <= 'Z')
  {
    StripSpaces(Lower(name))
  }

  /** The keys that `renderSectionContent` has content for. */
  const ContentSections: set<string> := {"faq", "terms", "privacy"}

  /** The names of the support links, in order. */
  const SupportLinks: seq<string> := ["Help Center", "Contact Us", "Terms of Service", "Privacy Policy", "Community"]

  /** `renderSectionContent(key)`: whether anything is rendered for the key. */
  predicate HasContent(key: string) {
    key in ContentSections
  }

  /** A name holding an `l` or an `o` has no content: none of the content keys holds either letter. */
  lemma KeyWithoutContent(name: string, k: nat)
    requires k < |name| && (name[k] == 'l' || name[k] == 'o')
    ensures !HasContent(SectionKey(name))
  {
    var c := name[k];
    assert Lower(name)[k] == c;
    assert c in SectionKey(name);
    assert c !in "faq" && c !in "terms" && c !in "privacy";
  }

  /**
   * No support link's key is one with content, so none of them shows a
   * chevron and opening any of them renders nothing.
   */
  lemma SupportLinksHaveNoContent()
    ensures forall k :: 0 <= k < |SupportLinks| ==> !HasContent(SectionKey(SupportLinks[k]))
  {
    var at: seq<nat> := [2, 1, 6, 9, 1];
    forall k | 0 <= k < |SupportLinks|
      ensures !HasContent(SectionKey(SupportLinks[k]))
    {
      KeyWithoutContent(SupportLinks[k], at[k]);
    }
  }

  // ---------------------------------------------------------------- the form

  datatype SubscribeStatus = Idle | Loading | Success | Failed

  const EmptyEmailMessage := "Please enter your email address"
  const InvalidEmailMessage := "Please enter a valid email address"

  /** The footer's state. */
  class FooterState {
    var email: string
    var subscribeStatus: SubscribeStatus
    var errorMessage: string
    var expandedSection: Option<string>

    constructor()
      ensures email == "" && subscribeStatus == Idle && errorMessage == "" && expandedSection == None
    {
      email := "";
      subscribeStatus := Idle;
      errorMessage := "";
      expandedSection := None;
    }

    method ToggleSection(section: string)
      modifies this
      ensures expandedSection == ToggleExpanded(old(expandedSection), section)
      ensures email == old(email) && subscribeStatus == old(subscribeStatus) && errorMessage == old(errorMessage)
    {
      expandedSection := if expandedSection == Some(section) then None else Some(section);
    }

    /**
     * `handleSubscribe`, with its simulated request taken as finished: an
     * empty field and an address the pattern rejects each set their message
     * and change nothing else; an accepted address clears the message, ends
     * in success and empties the field.
     */
    method HandleSubscribe()
      modifies this
      ensures expandedSection == old(expandedSection)
      ensures old(email) == "" ==>
        errorMessage == EmptyEmailMessage && email == old(email) && subscribeStatus == old(subscribeStatus)
      ensures old(email) != "" && !MatchesEmailPattern(old(email)) ==>
        errorMessage == InvalidEmailMessage && email == old(email) && subscribeStatus == old(subscribeStatus)
      ensures MatchesEmailPattern(old(email)) ==>
        errorMessage == "" && email == "" && subscribeStatus == Success
    {
      if email == "" {
        errorMessage := EmptyEmailMessage;
        return;
      }
      ValidEmailIff(email);
      if !ValidEmail(email) {
        errorMessage := InvalidEmailMessage;
        return;
      }
      subscribeStatus := Loading;
      errorMessage := "";
      subscribeStatus := Success;
      email := "";
    }
  }
}
