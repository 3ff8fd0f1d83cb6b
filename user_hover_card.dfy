/**
 * The user hover card: the details card (which branch it renders, the
 * first/last name split, the contact links), and the smart card that looks
 * the user up in the directory when it opens and falls back to what it was
 * given when the lookup fails.
 */
module UserHoverCard {
  import opened JsValues
  import JsStrings
  import ListItems

  /** The user object the details card renders. */
  datatype UserInfo = UserInfo(
    id: string,
    displayName: Option<string>,
    mail: Option<string>,
    jobTitle: Option<string>,
    department: Option<string>,
    officeLocation: Option<string>,
    businessPhones: Option<seq<string>>,
    mobilePhone: Option<string>,
    pictureUrl: Option<string>)

  /** The displayName the directory wrapper uses for a user it could not find. */
  const NotFoundName: string := "User not found"

  const MailPrefix: string := "mailto:"
  const TeamsPrefix: string := "https://teams.microsoft.com/l/chat/0/0?users="

  /** First and last name: split on spaces, first part, and the rest joined back with spaces. */
  function SplitName(displayName: Option<string>): (names: (string, string))
  {
    if !TextTruthy(displayName) then ("", "")
    else
      var parts := JsStrings.Split(displayName.value, ' ');
      if |parts| > 1 then (parts[0], JsStrings.Join(parts[1..], ' '))
      else (displayName.value, "")
  }

  /** With a space in the name: the first name is space-free and first + " " + last rebuilds the name. */
  lemma SplitNameRejoins(name: string)
    requires ' ' in name
    ensures SplitName(Some(name)).0 + " " + SplitName(Some(name)).1 == name
    ensures ' ' !in SplitName(Some(name)).0
  {
    var parts := JsStrings.Split(name, ' ');
    JsStrings.SplitCount(name, ' ');
    JsStrings.JoinSplit(name, ' ');
    JsStrings.SplitPartsFree(name, ' ', 0);
    assert JsStrings.Join(parts, ' ') == parts[0] + [' '] + JsStrings.Join(parts[1..], ' ');
  }

  /** So the first name is exactly the text before the first space. */
  lemma FirstNameBeforeFirstSpace(name: string, k: nat)
    requires k < |name| && name[k] == ' ' && ' ' !in name[..k]
    ensures SplitName(Some(name)).0 == name[..k]
    ensures SplitName(Some(name)).1 == name[k + 1..]
  {
    assert ' ' in name;
    SplitNameRejoins(name);
    var (first, last) := SplitName(Some(name));
    assert name == first + " " + last;
    assert name[|first|] == ' ';
    forall i | 0 <= i < |first|
      ensures name[i] != ' '
    {
      assert name[i] == first[i];
    }
    forall i | 0 <= i < k
      ensures name[i] != ' '
    {
      assert name[i] == name[..k][i];
    }
    assert |first| == k;
    assert name[..k] == first;
    assert name[k + 1..] == last;
  }

  /** Without a space, the first name is the whole name and the last name is empty. */
  lemma SplitNameNoSpace(name: string)
    requires name != "" && ' ' !in name
    ensures SplitName(Some(name)) == (name, "")
  {
    JsStrings.SplitCount(name, ' ');
  }

  /** The rows of the card. */
  datatype CardDetails = CardDetails(
    personaText: Option<string>,
    imageUrl: Option<string>,
    firstName: string,
    lastName: string,
    jobTitle: string,
    department: string,
    office: string,
    officePhone: string,
    mobilePhone: string,
    mailLink: Option<string>,
    teamsLink: Option<string>)

  /** What the details card renders. */
  datatype CardView = LoadingView | NoUserView | NotFoundView | Card(details: CardDetails)

  /** `businessPhones && businessPhones.length > 0 ? businessPhones[0] : ''`. */
  function OfficePhone(phones: Option<seq<string>>): (phone: string)
    ensures phones.Some? && |phones.value| > 0 ==> phone == phones.value[0]
    ensures phones.None? || phones.value == [] ==> phone == ""
  {
    if phones.Some? && |phones.value| > 0 then phones.value[0] else ""
  }

  function Details(user: UserInfo): CardDetails {
    var (first, last) := SplitName(user.displayName);
    CardDetails(
      user.displayName,
      user.pictureUrl,
      first,
      last,
      OrEmpty(user.jobTitle),
      OrEmpty(user.department),
      OrEmpty(user.officeLocation),
      OfficePhone(user.businessPhones),
      OrEmpty(user.mobilePhone),
      if TextTruthy(user.mail) then Some(MailPrefix + user.mail.value) else None,
      if TextTruthy(user.mail) then Some(TeamsPrefix + user.mail.value) else None)
  }

  /** `UserHoverCardDetails`: loading first, then a missing user, then the not-found sentinel, then the card. */
  function Render(loading: Option<bool>, user: Option<UserInfo>): (v: CardView)
    ensures loading == Some(true) <==> v.LoadingView?
    ensures v.NoUserView? <==> loading != Some(true) && user.None?
    ensures v.NotFoundView? <==> loading != Some(true) && user.Some? && user.value.displayName == Some(NotFoundName)
    ensures v.Card? ==> v.details == Details(user.value)
  {
    if loading == Some(true) then LoadingView
    else if user.None? then NoUserView
    else if user.value.displayName == Some(NotFoundName) then NotFoundView
    else Card(Details(user.value))
  }

  /** The contact links appear exactly when `mail` is non-empty, and both carry the address. */
  lemma ContactLinks(user: UserInfo)
    ensures Details(user).mailLink.Some? <==> TextTruthy(user.mail)
    ensures Details(user).teamsLink.Some? <==> TextTruthy(user.mail)
    ensures TextTruthy(user.mail) ==>
      JsStrings.EndsWith(Details(user).mailLink.value, user.mail.value)
      && JsStrings.EndsWith(Details(user).teamsLink.value, user.mail.value)
  {
    if TextTruthy(user.mail) {
      var m := user.mail.value;
      assert (MailPrefix + m)[|MailPrefix + m| - |m|..] == m;
      assert (TeamsPrefix + m)[|TeamsPrefix + m| - |m|..] == m;
    }
  }

  /** The directory record `getUserByEmail` resolves to. */
  datatype DirectoryUser = DirectoryUser(
    id: Option<string>,
    displayName: Option<string>,
    mail: Option<string>,
    userPrincipalName: Option<string>,
    jobTitle: Option<string>,
    department: Option<string>,
    officeLocation: Option<string>,
    businessPhones: Option<seq<string>>,
    mobilePhone: Option<string>)

  /** How the directory lookup ended: a (possibly empty) record, or a rejection. */
  datatype DirectoryResult = Resolved(data: Option<DirectoryUser>) | Rejected

  /** The key the profile picture is looked up by: the directory id when there is one, else the e-mail. */
  function PictureKey(data: Option<DirectoryUser>, email: string): (key: string)
    ensures data.Some? && TextTruthy(data.value.id) ==> key == data.value.id.value
    ensures !(data.Some? && TextTruthy(data.value.id)) ==> key == email
  {
    if data.Some? && TextTruthy(data.value.id) then data.value.id.value else email
  }

  /** The merged user after a successful directory lookup; a failed picture lookup keeps the given picture. */
  function Merge(email: string, displayName: Option<string>, pictureUrl: Option<string>,
                 data: Option<DirectoryUser>, picture: ListItems.PictureResult): UserInfo
  {
    var d := data.GetOr(DirectoryUser(None, None, None, None, None, None, None, None, None));
    UserInfo(
      OrElse(d.id, Some(email)).value,
      OrElse(d.displayName, displayName),
      OrElse(d.mail, OrElse(d.userPrincipalName, Some(email))),
      d.jobTitle,
      d.department,
      d.officeLocation,
      d.businessPhones,
      d.mobilePhone,
      match picture
        case LookupFailed => pictureUrl
        case Picture(url) => url)
  }

  /** The user built when the directory lookup rejects. */
  function Fallback(email: string, displayName: Option<string>, pictureUrl: Option<string>): UserInfo {
    UserInfo(email, displayName, Some(email), None, None, None, None, None, pictureUrl)
  }

  /** `fetchUser`'s resulting user, with the picture service as an oracle over its key. */
  function Fetched(email: string, displayName: Option<string>, pictureUrl: Option<string>,
                   directory: DirectoryResult, pictureFor: string -> ListItems.PictureResult): UserInfo
  {
    match directory
    case Rejected => Fallback(email, displayName, pictureUrl)
    case Resolved(data) => Merge(email, displayName, pictureUrl, data, pictureFor(PictureKey(data, email)))
  }

  /** Each field of a resolved lookup falls back through its chain: id to the e-mail, name to the prop, mail to the principal name then the e-mail. */
  lemma MergeFallbacks(email: string, displayName: Option<string>, pictureUrl: Option<string>,
                       d: DirectoryUser, picture: ListItems.PictureResult)
    ensures var u := Merge(email, displayName, pictureUrl, Some(d), picture);
      && u.id == (if TextTruthy(d.id) then d.id.value else email)
      && u.displayName == (if TextTruthy(d.displayName) then d.displayName else displayName)
      && u.mail == (if TextTruthy(d.mail) then d.mail
                    else if TextTruthy(d.userPrincipalName) then d.userPrincipalName
                    else Some(email))
      && u.jobTitle == d.jobTitle && u.department == d.department && u.officeLocation == d.officeLocation
      && u.businessPhones == d.businessPhones && u.mobilePhone == d.mobilePhone
      && (picture.LookupFailed? ==> u.pictureUrl == pictureUrl)
      && (picture.Picture? ==> u.pictureUrl == picture.url)
  {
  }

  /** Whichever way the lookup ends, a non-empty e-mail leaves the card with a mail address and an id. */
  lemma FetchedHasContact(email: string, displayName: Option<string>, pictureUrl: Option<string>,
                          directory: DirectoryResult, pictureFor: string -> ListItems.PictureResult)
    requires email != ""
    ensures TextTruthy(Fetched(email, displayName, pictureUrl, directory, pictureFor).mail)
    ensures Fetched(email, displayName, pictureUrl, directory, pictureFor).id != ""
    ensures directory.Rejected? ==>
      Fetched(email, displayName, pictureUrl, directory, pictureFor) == Fallback(email, displayName, pictureUrl)
  {
  }

  /** The smart hover card: its props and its `user`/`loading` state. */
  class SmartCard {
    const email: string
    const displayName: Option<string>
    const pictureUrl: Option<string>
    var user: Option<UserInfo>
    var loading: bool

    constructor(email: string, displayName: Option<string>, pictureUrl: Option<string>)
      ensures this.email == email && this.displayName == displayName && this.pictureUrl == pictureUrl
      ensures user.None? && !loading
    {
      this.email := email;
      this.displayName := displayName;
      this.pictureUrl := pictureUrl;
      user := None;
      loading := false;
    }

    /** What the card shows now. */
    function View(): CardView
      reads this
    {
      Render(Some(loading), user)
    }

    /** `fetchUser`, run when the card opens, with the two awaited lookups' outcomes. */
    method FetchUser(directory: DirectoryResult, pictureFor: string -> ListItems.PictureResult)
      modifies this
      ensures user == Some(Fetched(email, displayName, pictureUrl, directory, pictureFor))
      ensures !loading
    {
      loading := true;
      match directory {
        case Rejected =>
          user := Some(Fallback(email, displayName, pictureUrl));
        case Resolved(data) =>
          var userPic := pictureUrl;
          var picture := pictureFor(PictureKey(data, email));
          if picture.Picture? {
            userPic := picture.url;
          }
          user := Some(Merge(email, displayName, pictureUrl, data, picture));
          assert user.value.pictureUrl == userPic;
      }
      loading := false;
    }
  }
}
