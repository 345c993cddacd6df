/**
 * The user menu of the sidebar (src/components/layout/user-nav.tsx): it shows
 * the logged-in record with defaults for missing fields, derives the avatar
 * initials from the name, and removes the record on logout.
 */
module UserNav {
  import opened Wrappers
  import opened Storage
  import opened Users
  import Lists

  datatype UserProfile = UserProfile(name: string, email: string, avatar: string)

  const DefaultName: string := "Usuario"
  const DefaultEmail: string := "usuario@remindme.app"

  /** A missing email reads as "undefined" inside the avatar URL's template. */
  function AvatarSeed(email: Option<string>): string {
    if email.Some? then email.value else "undefined"
  }

  /**
   * The profile built from a parsed record: a missing or empty name, email or
   * avatar takes its default; the default avatar is seeded with the email as
   * stored, not with the defaulted one.
   */
  function ProfileOf(s: Session): (p: UserProfile)
    ensures p.name != "" && p.email != "" && p.avatar != ""
    ensures s.name.Some? && s.name.value != "" ==> p.name == s.name.value
    ensures s.name.None? || s.name.value == "" ==> p.name == DefaultName
    ensures s.email.Some? && s.email.value != "" ==> p.email == s.email.value
    ensures s.email.None? || s.email.value == "" ==> p.email == DefaultEmail
    ensures s.avatar.Some? && s.avatar.value != "" ==> p.avatar == s.avatar.value
    ensures s.avatar.None? || s.avatar.value == "" ==>
      p.avatar == "https://picsum.photos/seed/" + AvatarSeed(s.email) + "/100/100"
  {
    UserProfile(
      OrElse(s.name, DefaultName),
      OrElse(s.email, DefaultEmail),
      OrElse(s.avatar, "https://picsum.photos/seed/" + AvatarSeed(s.email) + "/100/100"))
  }

  /** The record login writes shows its own email and name. */
  lemma LoginRecordShown(email: string, name: string)
    requires email != "" && name != ""
    ensures ProfileOf(Session(Some(email), Some(name), None)).email == email
    ensures ProfileOf(Session(Some(email), Some(name), None)).name == name
    ensures ProfileOf(Session(Some(email), Some(name), None)).avatar
         == "https://picsum.photos/seed/" + email + "/100/100"
  {
  }

  /**
   * The mount effect: a parsed record gives a profile; an unparsable one is
   * removed from storage; without one there is no profile.
   */
  method LoadProfile(store: AccountStore) returns (profile: Option<UserProfile>)
    modifies store
    ensures store.users == old(store.users)
    ensures old(store.loggedIn).Present? ==>
      profile == Some(ProfileOf(old(store.loggedIn).value)) && store.loggedIn == old(store.loggedIn)
    ensures !old(store.loggedIn).Present? ==> profile.None? && store.loggedIn == Absent
  {
    match store.loggedIn {
      case Present(s) =>
        profile := Some(ProfileOf(s));
      case Corrupt =>
        store.loggedIn := Absent;
        profile := None;
      case Absent =>
        profile := None;
    }
  }

  /** `handleLogout`: the logged-in record is removed; the user list stays. */
  method HandleLogout(store: AccountStore)
    modifies store
    ensures store.loggedIn == Absent
    ensures store.users == old(store.users)
  {
    store.loggedIn := Absent;
  }

  /**
   * `s.split(" ")`: the maximal runs between single spaces, so leading,
   * trailing and repeated spaces give empty parts, and "" gives [""].
   */
  function Split(s: string): (parts: seq<string>)
    ensures |parts| >= 1
    ensures forall i :: 0 <= i < |parts| ==> ' ' !in parts[i]
  {
    if s == [] then [""]
    else
      var rest := Split(s[1..]);
      if s[0] == ' ' then [""] + rest
      else [[s[0]] + rest[0]] + rest[1..]
  }

  /** `parts.join(" ")` */
  function Join(parts: seq<string>): string
    requires |parts| >= 1
  {
    if |parts| == 1 then parts[0] else parts[0] + " " + Join(parts[1..])
  }

  /** Joining the parts with spaces gives back the text. */
  lemma {:induction false} JoinSplit(s: string)
    ensures Join(Split(s)) == s
  {
    if s != [] {
      var rest := Split(s[1..]);
      JoinSplit(s[1..]);
      if s[0] == ' ' {
        assert Split(s)[1..] == rest;
      } else if |rest| == 1 {
        assert Join(Split(s)) == [s[0]] + rest[0];
      } else {
        assert Split(s)[1..] == rest[1..];
        calc {
          Join(Split(s));
          ([s[0]] + rest[0]) + " " + Join(rest[1..]);
          [s[0]] + (rest[0] + " " + Join(rest[1..]));
          [s[0]] + s[1..];
        }
      }
    }
  }

  /** There is one more part than there are spaces. */
  lemma {:induction false} SplitCount(s: string)
    ensures |Split(s)| == Lists.Count(s, ' ') + 1
  {
    if s != [] {
      SplitCount(s[1..]);
    }
  }

  /** `parts.map(n => n[0]).join("")`: an empty part has no first character and adds nothing. */
  function Firsts(parts: seq<string>): (r: string)
    ensures |r| <= |parts|
  {
    if parts == [] then ""
    else (if parts[0] == "" then "" else [parts[0][0]]) + Firsts(parts[1..])
  }

  /** `toUpperCase` on ASCII letters. */
  function UpperChar(c: char): (u: char)
    ensures 'a' <= c <= 'z' ==> u as int == c as int - 32
    ensures !('a' <= c <= 'z') ==> u == c
  {
    if 'a' <= c <= 'z' then (c as int - 32) as char else c
  }

  function Upper(s: string): (r: string)
    ensures |r| == |s| && forall i :: 0 <= i < |s| ==> r[i] == UpperChar(s[i])
  {
    seq(|s|, i requires 0 <= i < |s| => UpperChar(s[i]))
  }

  /** `getInitials`: the upper-cased first characters of the parts, or "U" when there are none. */
  function Initials(name: string): (r: string)
    ensures r != []
    ensures |r| <= |Split(name)|
  {
    var joined := Upper(Firsts(Split(name)));
    if joined == "" then "U" else joined
  }

  /**
   * Reference definition: the characters that start a word, a word being a
   * maximal run of non-space characters; `atStart` says whether the previous
   * character was a space (or there was none).
   */
  function WordStarts(s: string, atStart: bool): string {
    if s == [] then ""
    else if s[0] == ' ' then WordStarts(s[1..], true)
    else (if atStart then [s[0]] else "") + WordStarts(s[1..], false)
  }

  lemma {:induction false} FirstsAreWordStarts(s: string, atStart: bool)
    ensures Firsts(if atStart then Split(s) else Split(s)[1..]) == WordStarts(s, atStart)
  {
    if s != [] {
      var rest := Split(s[1..]);
      if s[0] == ' ' {
        FirstsAreWordStarts(s[1..], true);
        assert Split(s)[1..] == rest;
      } else {
        FirstsAreWordStarts(s[1..], false);
        assert Split(s)[1..] == rest[1..];
      }
    }
  }

  /** The initials are the upper-cased first letters of the words of the name, or "U" for a name without words. */
  lemma InitialsAreWordStarts(name: string)
    ensures Initials(name) == (var w := WordStarts(name, true); if w == "" then "U" else Upper(w))
  {
    FirstsAreWordStarts(name, true);
  }

  /** A name of spaces only, or the empty name, has initials "U". */
  lemma {:induction false} BlankNameInitials(name: string, atStart: bool)
    requires forall i :: 0 <= i < |name| ==> name[i] == ' '
    ensures WordStarts(name, atStart) == ""
    ensures Initials(name) == "U"
  {
    if name != [] {
      BlankNameInitials(name[1..], true);
    }
    InitialsAreWordStarts(name);
  }
}
