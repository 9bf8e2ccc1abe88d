/**
 * The user-account page: a profile form, connected sign-in providers, appearance and two-factor
 * switches, and the avatar's initials derived from the profile name.
 */
module Users {
  import opened JsString
  import opened Flags

  type Form = map<string, string>

  const NameField: string := "name"

  const InitialForm: Form :=
    map[NameField := "Institution Admin", "email" := "admin@institution.com", "password" := "", "team" := "Registrar"]

  const InitialConnections: map<string, bool> := map["google" := true, "facebook" := false]

  /** `pieces.map((n) => n[0]).join("")`: an empty piece gives `undefined`, which joins as "". */
  function FirstChars(pieces: seq<string>): (r: string)
    ensures |r| <= |pieces|
  {
    if pieces == [] then ""
    else (if pieces[0] == "" then "" else [pieces[0][0]]) + FirstChars(pieces[1..])
  }

  lemma {:induction false} FirstCharsAppend(x: seq<string>, y: seq<string>)
    ensures FirstChars(x + y) == FirstChars(x) + FirstChars(y)
  {
    if x == [] {
      assert x + y == y;
    } else {
      assert (x + y)[0] == x[0] && (x + y)[1..] == x[1..] + y;
      FirstCharsAppend(x[1..], y);
    }
  }

  /** The avatar text: `name.split(" ").map((n) => n[0]).join("").toUpperCase()`. */
  function Initials(name: string): string {
    ToUpper(FirstChars(Split(name, ' ')))
  }

  /** A single word gives its upper-cased first character, and "" gives "". */
  lemma InitialsOfWord(w: string)
    requires ' ' !in w
    ensures Initials(w) == if w == "" then "" else [UpperChar(w[0])]
  {
    SingleWordSplit(w);
  }

  lemma SingleWordSplit(w: string)
    requires ' ' !in w
    ensures Split(w, ' ') == [w]
  {
    NoSpaceCount(w);
    var r := Split(w, ' ');
    assert Join(r, ' ') == r[0];
  }

  lemma {:induction false} NoSpaceCount(w: string)
    requires ' ' !in w
    ensures Count(w, ' ') == 0
  {
    if w != [] {
      assert w[0] != ' ';
      NoSpaceCount(w[1..]);
    }
  }

  /** Each space-separated piece contributes on its own: a name's initials are those of its words in turn. */
  lemma InitialsAroundSpace(w: string, rest: string)
    requires ' ' !in w
    ensures Initials(w + [' '] + rest) == Initials(w) + Initials(rest)
  {
    SplitAround(w, rest, ' ');
    FirstCharsAppend(Split(w, ' '), Split(rest, ' '));
    ToUpperAppend(FirstChars(Split(w, ' ')), FirstChars(Split(rest, ' ')));
  }

  lemma TwoWordInitials(first: string, last: string)
    requires ' ' !in first && ' ' !in last && first != "" && last != ""
    ensures Initials(first + [' '] + last) == [UpperChar(first[0]), UpperChar(last[0])]
  {
    InitialsAroundSpace(first, last);
    InitialsOfWord(first);
    InitialsOfWord(last);
  }

  /** There are at most as many initials as pieces: one more than the number of spaces. */
  lemma InitialsLength(name: string)
    ensures |Initials(name)| <= Count(name, ' ') + 1
  {
  }

  /** The default profile name "Institution Admin" shows "IA". */
  lemma DefaultInitials()
    ensures Initials(InitialForm[NameField]) == "IA"
  {
    var first, last := "Institution", "Admin";
    assert InitialForm[NameField] == first + [' '] + last;
    TwoWordInitials(first, last);
  }

  class UserAccount {
    var form: Form
    var appearance: string
    var twoFA: bool
    var connections: map<string, bool>

    /** The avatar reads the name field, which the page never removes. */
    ghost predicate Valid()
      reads this
    {
      NameField in form
    }

    constructor ()
      ensures Valid()
      ensures form == InitialForm && appearance == "light" && twoFA && connections == InitialConnections
    {
      form := InitialForm;
      appearance := "light";
      twoFA := true;
      connections := InitialConnections;
    }

    /** `handleChange`: only the named field of the profile form changes. */
    method HandleChange(name: string, value: string)
      requires Valid()
      modifies this`form
      ensures Valid()
      ensures form.Keys == old(form).Keys + {name} && form[name] == value
      ensures forall f :: f in old(form) && f != name ==> form[f] == old(form)[f]
    {
      form := form[name := value];
    }

    /** `toggleConnection(provider)`: that provider flips, the others keep their state. */
    method ToggleConnection(provider: string)
      modifies this`connections
      ensures connections == Flip(old(connections), provider)
    {
      connections := Flip(connections, provider);
    }

    /** The light and dark buttons. */
    method SetAppearance(mode: string)
      modifies this`appearance
      ensures appearance == mode
    {
      appearance := mode;
    }

    /** The two-factor checkbox. */
    method ToggleTwoFA()
      modifies this`twoFA
      ensures twoFA == !old(twoFA)
    {
      twoFA := !twoFA;
    }

    /** The avatar's text for the current profile name. */
    function AvatarInitials(): string
      requires Valid()
      reads this
    {
      Initials(form[NameField])
    }
  }

  /** Toggling the same provider twice restores the connections. */
  method ToggleConnectionTwice(page: UserAccount, provider: string)
    requires provider in page.connections
    modifies page
    ensures page.connections == old(page.connections)
  {
    page.ToggleConnection(provider);
    page.ToggleConnection(provider);
    FlipTwice(old(page.connections), provider);
  }
}
