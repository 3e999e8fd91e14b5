/** src/components/profile-card.tsx: the name, initials and the two text lines of the
    profile card. */
module ProfileCard {
  import opened Wrappers
  import opened Strings

  /** `user.name || user.email`: the name unless it is empty. */
  function DisplayName(name: string, email: string): (d: string)
    ensures name != "" ==> d == name
    ensures name == "" ==> d == email
  {
    if name != "" then name else email
  }

  /** `.map((n) => n[0]).join("")`: the first character of every word; an empty word
      yields `undefined`, which `join` turns into nothing. */
  function FirstChars(words: seq<string>): (r: string)
    ensures |r| <= |words|
  {
    if words == [] then ""
    else (if words[0] == "" then "" else [words[0][0]]) + FirstChars(words[1..])
  }

  /** An independent reading of the same thing: the characters of `s` that are not a
      space and start a word, i.e. follow a space or the start (`atStart` says whether the
      position before `s` counts as one). */
  function WordStarts(s: string, atStart: bool): (r: string)
    ensures forall k :: 0 <= k < |r| ==> r[k] in s && r[k] != ' '
  {
    if s == [] then ""
    else if s[0] == ' ' then WordStarts(s[1..], true)
    else (if atStart then [s[0]] else "") + WordStarts(s[1..], false)
  }

  /** Splitting on spaces and taking first characters picks exactly the word starts. */
  lemma {:induction false} FirstCharsOfSplit(s: string, atStart: bool)
    ensures WordStarts(s, atStart) ==
      if atStart then FirstChars(Split(s, ' ')) else FirstChars(Split(s, ' ')[1..])
  {
    if s != [] {
      var rest := Split(s[1..], ' ');
      var r := Split(s, ' ');
      if s[0] == ' ' {
        FirstCharsOfSplit(s[1..], true);
        assert r == [""] + rest;
        assert r[1..] == rest;
        assert FirstChars(r) == FirstChars(rest);
      } else {
        FirstCharsOfSplit(s[1..], false);
        assert r == [[s[0]] + rest[0]] + rest[1..];
        assert r[1..] == rest[1..];
        assert FirstChars(r) == [s[0]] + FirstChars(rest[1..]);
      }
    }
  }

  /** `.toUpperCase()` of the first characters of the space-separated words. */
  function FullInitials(displayName: string): (r: string)
    ensures r == ToUpper(WordStarts(displayName, true))
  {
    FirstCharsOfSplit(displayName, true);
    ToUpper(FirstChars(Split(displayName, ' ')))
  }

  /** `.slice(0, n)`. */
  function Slice(s: string, n: nat): (r: string)
    ensures |r| == if |s| < n then |s| else n
    ensures r == s[..|r|]
  {
    if |s| <= n then s else s[..n]
  }

  /** `initials`: at most two characters, a prefix of the full initials. */
  function Initials(displayName: string): (r: string)
    ensures |r| <= 2
    ensures |r| <= |FullInitials(displayName)| && r == FullInitials(displayName)[..|r|]
    ensures |r| == 2 || r == FullInitials(displayName)
  {
    Slice(FullInitials(displayName), 2)
  }

  /** The first characters of two lists of words are those of each, in order. */
  lemma {:induction false} FirstCharsConcat(ws: seq<string>, vs: seq<string>)
    ensures FirstChars(ws + vs) == FirstChars(ws) + FirstChars(vs)
  {
    if ws == [] {
      assert ws + vs == vs;
    } else {
      assert (ws + vs)[0] == ws[0];
      assert (ws + vs)[1..] == ws[1..] + vs;
      FirstCharsConcat(ws[1..], vs);
    }
  }

  /** Empty words (from leading, trailing or doubled spaces) contribute nothing. */
  lemma EmptyWordsContributeNothing(ws: seq<string>, vs: seq<string>)
    ensures FirstChars(ws + [""] + vs) == FirstChars(ws + vs)
  {
    FirstCharsConcat(ws + [""], vs);
    FirstCharsConcat(ws, [""]);
    FirstCharsConcat(ws, vs);
    assert FirstChars([""]) == "";
  }

  /** `s.length > n ? `${s.slice(0, n)}...` : s`. */
  function Truncate(s: string, n: nat): (r: string)
    ensures |s| <= n ==> r == s
    ensures |s| > n ==> |r| == n + 3 && r[..n] == s[..n] && r[n..] == "..."
  {
    if |s| > n then s[..n] + "..." else s
  }

  /** The first line of the card: the display name, cut at 18 characters. */
  function NameLine(displayName: string): (r: string)
    ensures |r| <= 21
    ensures |displayName| <= 18 ==> r == displayName
  {
    Truncate(displayName, 18)
  }

  /** The second line: "Account" when the email is what is already shown, otherwise the
      email cut at 22 characters. */
  function SecondLine(email: string, displayName: string): (r: string)
    ensures email == displayName ==> r == "Account"
    ensures email != displayName ==> r == Truncate(email, 22) && |r| <= 25
  {
    if email != displayName then Truncate(email, 22) else "Account"
  }

  /** A user without a name shows the email once and "Account" under it. */
  lemma NamelessUserShowsAccount(email: string)
    ensures SecondLine(email, DisplayName("", email)) == "Account"
  {
  }

  datatype User = User(name: string, email: string)
  datatype Session = Session(isPending: bool, user: Option<User>)
  datatype CardView = CardView(initials: string, nameLine: string, secondLine: string)

  /** What the card renders: nothing while the session is pending or has no user. */
  function Card(session: Session): (r: Option<CardView>)
    ensures r.None? <==> session.isPending || session.user.None?
    ensures r.Some? ==>
      var d := DisplayName(session.user.value.name, session.user.value.email);
      r.value == CardView(Initials(d), NameLine(d), SecondLine(session.user.value.email, d))
  {
    if session.isPending || session.user.None? then None
    else
      var u := session.user.value;
      var d := DisplayName(u.name, u.email);
      Some(CardView(Initials(d), NameLine(d), SecondLine(u.email, d)))
  }
}
