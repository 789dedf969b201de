/** The names of the share parameters. */
module ShareConf {
  import opened ConfText

  const CONF_MAX := 39

  const GUEST_ACCOUNT := 3
  const ADMIN_USERS := 21
  const MAX_CONNECTIONS := 24

  function Names0To4(c: nat): (s: string)
    requires 0 <= c < 5
    ensures |s| > 1 && Place(Mark(s)) == c
  {
    match c
    case 0 => "comment" case 1 => "path"
    case 2 => "guest ok" case 3 => "guest account"
    case _ => "read only"
  }

  lemma Words0To4(c: nat)
    requires 0 <= c < 5
    ensures Words(Names0To4(c))
  {
    hide Place;
  }

  function Names5To9(c: nat): (s: string)
    requires 5 <= c < 10
    ensures |s| > 1 && Place(Mark(s)) == c
  {
    match c
    case 5 => "browseable" case 6 => "write ok"
    case 7 => "writeable" case 8 => "store dos attributes"
    case _ => "oplocks"
  }

  lemma Words5To9(c: nat)
    requires 5 <= c < 10
    ensures Words(Names5To9(c))
  {
    hide Place;
  }

  function Names10To14(c: nat): (s: string)
    requires 10 <= c < 15
    ensures |s| > 1 && Place(Mark(s)) == c
  {
    match c
    case 10 => "create mask" case 11 => "directory mask"
    case 12 => "force create mode" case 13 => "force directory mode"
    case _ => "force group"
  }

  lemma Words10To14(c: nat)
    requires 10 <= c < 15
    ensures Words(Names10To14(c))
  {
    hide Place;
  }

  function Names15To19(c: nat): (s: string)
    requires 15 <= c < 20
    ensures |s| > 1 && Place(Mark(s)) == c
  {
    match c
    case 15 => "force user" case 16 => "hide dot files"
    case 17 => "valid users" case 18 => "invalid users"
    case _ => "read list"
  }

  lemma Words15To19(c: nat)
    requires 15 <= c < 20
    ensures Words(Names15To19(c))
  {
    hide Place;
  }

  function Names20To24(c: nat): (s: string)
    requires 20 <= c < 25
    ensures |s| > 1 && Place(Mark(s)) == c
  {
    match c
    case 20 => "write list" case 21 => "admin users"
    case 22 => "hosts allow" case 23 => "hosts deny"
    case _ => "max connections"
  }

  lemma Words20To24(c: nat)
    requires 20 <= c < 25
    ensures Words(Names20To24(c))
  {
    hide Place;
  }

  function Names25To29(c: nat): (s: string)
    requires 25 <= c < 30
    ensures |s| > 1 && Place(Mark(s)) == c
  {
    match c
    case 25 => "veto files" case 26 => "inherit owner"
    case 27 => "follow symlinks" case 28 => "vfs objects"
    case _ => "writable"
  }

  lemma Words25To29(c: nat)
    requires 25 <= c < 30
    ensures Words(Names25To29(c))
  {
    hide Place;
  }

  function Names30To32(c: nat): (s: string)
    requires 30 <= c < 33
    ensures |s| > 1 && Place(Mark(s)) == c
  {
    match c
    case 30 => "crossmnt" case 31 => "fruit time machine"
    case _ => "fruit time machine max size"
  }

  lemma Words30To32(c: nat)
    requires 30 <= c < 33
    ensures Words(Names30To32(c))
  {
    hide Place;
  }

  function Names33To35(c: nat): (s: string)
    requires 33 <= c < 36
    ensures |s| > 1 && Place(Mark(s)) == c
  {
    match c
    case 33 => "fruit finder info" case 34 => "fruit resource fork size"
    case _ => "fruit max access"
  }

  lemma Words33To35(c: nat)
    requires 33 <= c < 36
    ensures Words(Names33To35(c))
  {
    hide Place;
  }

  function Names36To38(c: nat): (s: string)
    requires 36 <= c < 39
    ensures |s| > 1 && Place(Mark(s)) == c
  {
    match c
    case 36 => "continuous availability" case 37 => "streams"
    case _ => "acl xattr"
  }

  lemma Words36To38(c: nat)
    requires 36 <= c < 39
    ensures Words(Names36To38(c))
  {
    hide Place;
  }

  function Name(c: nat): (s: string)
    requires c < CONF_MAX
    ensures |s| > 1 && Place(Mark(s)) == c
  {
    if c < 5 then Names0To4(c)
    else if c < 10 then Names5To9(c)
    else if c < 15 then Names10To14(c)
    else if c < 20 then Names15To19(c)
    else if c < 25 then Names20To24(c)
    else if c < 30 then Names25To29(c)
    else if c < 33 then Names30To32(c)
    else if c < 36 then Names33To35(c)
    else Names36To38(c)
  }

  /** A number that tells the names apart, from the length, the second and the last letter. */
  ghost function Mark(s: string): int
    requires |s| > 1
  {
    |s| + 7 * (LowerChar(s[1]) as int) + 2 * (LowerChar(s[|s| - 1]) as int)
  }

  ghost function Place(mark: int): int {
    match mark
    case 1016 => 0 case 891 => 1 case 1041 => 2 case 1064 => 3 case 958 => 4 case 1010 => 5
    case 1020 => 6 case 1009 => 7 case 1062 => 8 case 1021 => 9 case 1023 => 10 case 963 => 11
    case 996 => 12 case 999 => 13 case 1012 => 14 case 1015 => 15 case 979 => 16 case 920 => 17
    case 1013 => 18 case 948 => 19 case 1040 => 20 case 941 => 21 case 1026 => 22 case 1029 => 23
    case 924 => 24 case 947 => 25 case 1011 => 26 case 1022 => 27 case 955 => 28 case 1008 => 29
    case 1038 => 30 case 1018 => 31 case 1027 => 32 case 1037 => 33 case 1024 => 34 case 1044 => 35
    case 1042 => 36 case 1049 => 37 case 930 => 38
    case _ => -1
  }

  /** Small letters, with blanks only between words. */
  ghost predicate Words(s: string) {
    && |s| > 1 && s[0] != ' ' && s[|s| - 1] != ' '
    && forall i :: 0 <= i < |s| ==> s[i] == ' ' || 'a' <= s[i] <= 'z'
  }

  lemma NameIsWords(c: nat)
    requires c < CONF_MAX
    ensures Words(Name(c))
  {
    hide Words, Names0To4, Names5To9, Names10To14, Names15To19, Names20To24;
    hide Names25To29, Names30To32, Names33To35, Names36To38;
    if c < 5 {
      Words0To4(c);
    } else if c < 10 {
      Words5To9(c);
    } else if c < 15 {
      Words10To14(c);
    } else if c < 20 {
      Words15To19(c);
    } else if c < 25 {
      Words20To24(c);
    } else if c < 30 {
      Words25To29(c);
    } else if c < 33 {
      Words30To32(c);
    } else if c < 36 {
      Words33To35(c);
    } else {
      Words36To38(c);
    }
  }

  lemma SameMark(a: string, b: string)
    requires |a| > 1 && |b| > 1 && Lower(a) == Lower(b)
    ensures Mark(a) == Mark(b)
  {
    assert Lower(a)[1] == LowerChar(a[1]) && Lower(b)[1] == LowerChar(b[1]);
    assert Lower(a)[|a| - 1] == LowerChar(a[|a| - 1]) && Lower(b)[|a| - 1] == LowerChar(b[|b| - 1]);
  }

  /** No two parameters have the same name, in any letter case. */
  lemma NamesDistinct(i: nat, j: nat)
    requires i < CONF_MAX && j < CONF_MAX && Lower(Name(i)) == Lower(Name(j))
    ensures i == j
  {
    hide Name, Lower, Mark, Place;
    SameMark(Name(i), Name(j));
  }

  /** [global] does not offer the parameters that are global there already; one parameter is offered nowhere. */
  predicate Offered(c: nat, isGlobal: bool) {
    c < CONF_MAX && c != ADMIN_USERS && !(isGlobal && (c == GUEST_ACCOUNT || c == MAX_CONNECTIONS))
  }

  ghost predicate Names(c: nat, k: string, isGlobal: bool) { Offered(c, isGlobal) && Lower(Name(c)) == Lower(k) }

  /** The key is a share parameter. */
  ghost predicate Recognised(k: string, isGlobal: bool) { exists c :: Names(c, k, isGlobal) }

  lemma SpecialNames()
    ensures Name(GUEST_ACCOUNT) == "guest account" && Name(ADMIN_USERS) == "admin users"
    ensures Name(MAX_CONNECTIONS) == "max connections"
  {
  }

  /** Every name of the table is a share parameter, but for `admin users`, and in [global] for the two of its own. */
  lemma RecognisedExactly(c: nat, isGlobal: bool)
    requires c < CONF_MAX
    ensures Recognised(Name(c), isGlobal) <==>
            Name(c) != "admin users" && (isGlobal ==> Name(c) != "guest account" && Name(c) != "max connections")
  {
    SpecialNames();
    hide Name, Lower;
    OneName(c, ADMIN_USERS);
    OneName(c, GUEST_ACCOUNT);
    OneName(c, MAX_CONNECTIONS);
    if b :| Names(b, Name(c), isGlobal) {
      NamesDistinct(b, c);
    }
    assert Offered(c, isGlobal) ==> Names(c, Name(c), isGlobal);
  }

  lemma OneName(c: nat, d: nat)
    requires c < CONF_MAX && d < CONF_MAX
    ensures Name(c) == Name(d) <==> c == d
  {
    hide Name, Lower;
    if Name(c) == Name(d) {
      NamesDistinct(c, d);
    }
  }
}
