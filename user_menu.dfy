/** The user menu's avatar and header (components/UserMenu.tsx): initials
    from the display name, and the choice between picture, initials and a
    generic icon. */
module UserMenu {
  import opened Common
  import opened Text

  /** `words.map(n => n[0]).join("")`: the first character of every word;
      an empty word contributes nothing. */
  function FirstLetters(words: seq<string>): (r: string)
    ensures |r| <= |words|
  {
    if words == [] then ""
    else (if words[0] == "" then "" else [words[0][0]]) + FirstLetters(words[1..])
  }

  /** Reference reading of "the first letter of each word": scanning left to
      right, every non-space character that follows a space or starts the
      text. */
  function WordStarts(s: string, afterSpace: bool): string
  {
    if s == [] then ""
    else (if s[0] != ' ' && afterSpace then [s[0]] else "") + WordStarts(s[1..], s[0] == ' ')
  }

  function Take(s: string, n: nat): (r: string)
    ensures |r| <= n && |r| <= |s|
    ensures r == s[..|r|]
    ensures |s| >= n ==> |r| == n
  {
    if |s| <= n then s else s[..n]
  }

  /** `initials`: null without a display name; otherwise the first letters
      of the space-separated words, upper-cased, at most two. */
  function Initials(displayName: Option<string>): (r: Option<string>)
    ensures r.None? <==> !Truthy(displayName)
    ensures r.Some? ==> |r.value| <= 2
  {
    if Truthy(displayName) then Some(Take(Upper(FirstLetters(Split(displayName.value, ' '))), 2))
    else None
  }

  /** Within a word, only its first character can start a word. */
  lemma {:induction false} WordStartsInWord(w: string, t: string, afterSpace: bool)
    requires ' ' !in w
    ensures WordStarts(w + t, afterSpace) ==
      (if w != "" && afterSpace then [w[0]] else "") + WordStarts(t, if w == "" then afterSpace else false)
  {
    if w != "" {
      assert w[0] != ' ' && (w + t)[0] == w[0];
      assert (w + t)[1..] == w[1..] + t;
      assert ' ' !in w[1..] by { assert forall k :: 0 <= k < |w[1..]| ==> w[1..][k] == w[k + 1]; }
      WordStartsInWord(w[1..], t, false);
      assert WordStarts(w[1..] + t, false) == WordStarts(t, false);
      assert WordStarts(w + t, afterSpace) == (if afterSpace then [w[0]] else "") + WordStarts(w[1..] + t, false);
    } else {
      assert w + t == t;
    }
  }

  /** Splitting on spaces and taking first letters is the word-start scan. */
  lemma {:induction false} FirstLettersAreWordStarts(s: string)
    ensures FirstLetters(Split(s, ' ')) == WordStarts(s, true)
    decreases |s|
  {
    if ' ' !in s {
      WordStartsInWord(s, "", true);
      assert s + "" == s;
    } else {
      var i := IndexOf(s, ' ');
      var w, rest := s[..i], s[i + 1..];
      SplitAtFirstSpace(s);
      FirstLettersAreWordStarts(rest);
      FirstLettersCons(w, Split(rest, ' '));
      assert s == w + ([' '] + rest);
      WordStartsInWord(w, [' '] + rest, true);
      WordStartsAfterSpace(rest, w == "");
    }
  }

  lemma SplitAtFirstSpace(s: string)
    requires ' ' in s
    ensures var i := IndexOf(s, ' ');
      Split(s, ' ') == [s[..i]] + Split(s[i + 1..], ' ')
  {
  }

  lemma FirstLettersCons(w: string, words: seq<string>)
    ensures FirstLetters([w] + words) == (if w == "" then "" else [w[0]]) + FirstLetters(words)
  {
    assert ([w] + words)[1..] == words;
  }

  /** A space ends any word, so the scan after it starts afresh. */
  lemma WordStartsAfterSpace(rest: string, afterSpace: bool)
    ensures WordStarts([' '] + rest, afterSpace) == WordStarts(rest, true)
  {
    assert ([' '] + rest)[1..] == rest;
  }

  /** The initials are the first two upper-cased word starts of the name. */
  lemma InitialsAreWordStarts(displayName: Option<string>)
    requires Truthy(displayName)
    ensures Initials(displayName) == Some(Take(Upper(WordStarts(displayName.value, true)), 2))
  {
    FirstLettersAreWordStarts(displayName.value);
  }

  /** A text without spaces has only its first character as a word start. */
  lemma {:induction false} WordStartsOfOneWord(w: string)
    requires w != "" && ' ' !in w
    ensures WordStarts(w, true) == [w[0]]
  {
    WordStartsInWord(w, "", true);
    assert w + "" == w;
  }

  /** A name of spaces only has no word starts. */
  lemma {:induction false} WordStartsOfSpaces(s: string, afterSpace: bool)
    requires forall k :: 0 <= k < |s| ==> s[k] == ' '
    ensures WordStarts(s, afterSpace) == ""
  {
    if s != [] {
      WordStartsOfSpaces(s[1..], true);
    }
  }

  datatype Avatar = Picture(url: string) | Letters(text: string) | GenericIcon

  /** The avatar: the picture when there is a URL, else non-empty initials,
      else the generic icon. */
  function AvatarOf(profilePictureUrl: Option<string>, displayName: Option<string>): (a: Avatar)
    ensures a.Picture? <==> Truthy(profilePictureUrl)
    ensures a.Picture? ==> a.url == profilePictureUrl.value
    ensures a.Letters? <==> !Truthy(profilePictureUrl) && Truthy(Initials(displayName))
    ensures a.Letters? ==> Some(a.text) == Initials(displayName)
  {
    var initials := Initials(displayName);
    if Truthy(profilePictureUrl) then Picture(profilePictureUrl.value)
    else if Truthy(initials) then Letters(initials.value)
    else GenericIcon
  }

  /** A display name of spaces only gets the generic icon, not empty
      initials. */
  lemma BlankNameGetsIcon(displayName: string)
    requires displayName != ""
    requires forall k :: 0 <= k < |displayName| ==> displayName[k] == ' '
    ensures AvatarOf(None, Some(displayName)) == GenericIcon
  {
    InitialsAreWordStarts(Some(displayName));
    WordStartsOfSpaces(displayName, true);
  }

  /** The menu header: the display name, or "Player" when it is empty. */
  function HeaderLabel(displayName: Option<string>): (text: string)
    ensures Truthy(displayName) ==> text == displayName.value
    ensures !Truthy(displayName) ==> text == "Player"
  {
    OrElse(if displayName.Some? then displayName.value else "", "Player")
  }
}
