/** Communities as the program sees them: the raw entries of a `groups.get`
    page, the `{id, name}` records of the groups file, the canonical id used
    for membership, the open/closed classification and the text lines the
    program writes about a community. */
module Groups {
  import opened Options
  import opened Decimal

  /** An entry of an extended `groups.get` page. A field the entry lacks is
      `None`; `isClosed` is the API's integer flag (0 open, otherwise closed or
      private) and `deactivated` the API's reason string ("deleted", "banned"). */
  datatype RawGroup = RawGroup(id: int, name: Option<string>, isClosed: Option<int>, deactivated: Option<string>)

  /** A record of the groups file. The sign of `id` tells a public page from a club. */
  datatype Group = Group(id: int, name: string)

  /** The canonical identity of a community: the absolute value of its id. */
  function Canon(id: int): (c: nat)
    ensures c == id || c == -id
  {
    if id < 0 then -id else id
  }

  /** Python truthiness of the `deactivated` field: present and non-empty. */
  predicate Deactivated(g: RawGroup)
  {
    g.deactivated.Some? && |g.deactivated.value| > 0
  }

  /** Kept by the open collection: `not g.get("is_closed", 1) and not g.get("deactivated")`. */
  predicate IsOpen(g: RawGroup)
  {
    g.isClosed.GetOr(1) == 0 && !Deactivated(g)
  }

  /** Kept by the closed collection: `g.get("is_closed", 0) or g.get("deactivated")`. */
  predicate IsClosed(g: RawGroup)
  {
    g.isClosed.GetOr(0) != 0 || Deactivated(g)
  }

  /** Name used when an entry has none: "id" followed by the signed id. */
  function DefaultName(id: int): (s: string)
    ensures |s| > 2 && s[..2] == "id"
  {
    "id" + IntToString(id)
  }

  function NameOf(g: RawGroup): string
  {
    g.name.GetOr(DefaultName(g.id))
  }

  /** The groups-file record made from an entry. */
  function ToGroup(g: RawGroup): Group
  {
    Group(g.id, NameOf(g))
  }

  const PublicPrefix: string := "https://vk.com/public"
  const ClubPrefix: string := "https://vk.com/club"

  /** Link to a community: a public page for a positive id, a club (by absolute value) otherwise. */
  function Url(id: int): (u: string)
    ensures PublicPrefix <= u <==> id > 0
    ensures ClubPrefix <= u <==> id <= 0
  {
    assert PublicPrefix[15] == 'p' && ClubPrefix[15] == 'c';
    if id > 0 then PublicPrefix + IntToString(id) else ClubPrefix + IntToString(Canon(id))
  }

  /** The separator of a closed-community line: space, em dash, space. */
  const Separator: string := " \U{2014} "

  /** A line of the closed-communities file. */
  function ClosedLine(g: RawGroup): string
  {
    NameOf(g) + Separator + Url(g.id)
  }

  const IdTag: string := " (id "

  /** A line of the failure list for a community whose join failed. */
  function FailureLine(name: string, gid: nat): string
  {
    name + IdTag + NatToString(gid) + ")"
  }

  // Readers of the lines above. They are not part of the program; as inverses
  // of the writers they show that each line determines what it was made from.

  function ParseUrl(u: string): Option<int>
  {
    if PublicPrefix <= u then
      var rest := u[|PublicPrefix|..];
      if |rest| > 0 && AllDigits(rest) && ParseNat(rest) > 0 then Some(ParseNat(rest) as int) else None
    else if ClubPrefix <= u then
      var rest := u[|ClubPrefix|..];
      if |rest| > 0 && AllDigits(rest) then Some(-(ParseNat(rest) as int)) else None
    else None
  }

  /** `s` without the suffix `tail`, if it ends with it. */
  function StripSuffix(s: string, tail: string): Option<string>
  {
    if |s| >= |tail| && s[|s| - |tail|..] == tail then Some(s[..|s| - |tail|]) else None
  }

  /** Splits a closed line into name and signed id: the id's digits are the
      trailing run of digits, preceded by a public or club prefix and the separator. */
  function ParseClosedLine(line: string): Option<(string, int)>
  {
    var n := TrailingRun(line, IsDigit);
    var head := line[..|line| - n];
    var digits := ParseNat(line[|line| - n..]);
    if n == 0 then None
    else if StripSuffix(head, PublicPrefix).Some? then
      var name := StripSuffix(StripSuffix(head, PublicPrefix).value, Separator);
      if name.Some? then Some((name.value, digits as int)) else None
    else if StripSuffix(head, ClubPrefix).Some? then
      var name := StripSuffix(StripSuffix(head, ClubPrefix).value, Separator);
      if name.Some? then Some((name.value, -(digits as int))) else None
    else None
  }

  /** Splits a failure line into name and canonical id: the id is the trailing
      run of digits before the closing parenthesis. */
  function ParseFailureLine(line: string): Option<(string, nat)>
  {
    if |line| == 0 || line[|line| - 1] != ')' then None
    else
      var body := line[..|line| - 1];
      var n := TrailingRun(body, IsDigit);
      var head := body[..|body| - n];
      if n > 0 && |head| >= |IdTag| && head[|head| - |IdTag|..] == IdTag then
        Some((head[..|head| - |IdTag|], ParseNat(body[|body| - n..])))
      else None
  }

  /** Canonical ids identify a community regardless of the sign of its id. */
  lemma CanonSign(id: int)
    ensures Canon(id) == Canon(-id)
    ensures id >= 0 ==> Canon(id) == id
  {
  }

  /** The two predicates in the program's words: open needs `is_closed` present
      and zero; closed needs it non-zero or a deactivation reason; no entry is
      both, and an entry is in neither list iff `is_closed` is missing and
      `deactivated` is missing or empty. */
  lemma Classification(g: RawGroup)
    ensures IsOpen(g) <==> g.isClosed == Some(0) && !Deactivated(g)
    ensures IsClosed(g) <==> (g.isClosed.Some? && g.isClosed.value != 0) || Deactivated(g)
    ensures !(IsOpen(g) && IsClosed(g))
    ensures (!IsOpen(g) && !IsClosed(g)) <==> (g.isClosed.None? && !Deactivated(g))
  {
  }

  lemma DefaultNameRoundTrip(id: int)
    ensures ParseInt(DefaultName(id)[2..]) == Some(id)
  {
    assert DefaultName(id)[2..] == IntToString(id);
    ParseIntToString(id);
  }

  lemma UrlRoundTrip(id: int)
    ensures ParseUrl(Url(id)) == Some(id)
  {
    var u := Url(id);
    if id > 0 {
      assert u[|PublicPrefix|..] == NatToString(id);
      ParseNatToString(id);
    } else {
      assert !(PublicPrefix <= u);
      assert u[|ClubPrefix|..] == NatToString(Canon(id));
      ParseNatToString(Canon(id));
    }
  }

  /** Distinct ids get distinct links, so the public/club rule loses no information. */
  lemma UrlInjective(a: int, b: int)
    requires Url(a) == Url(b)
    ensures a == b
  {
    UrlRoundTrip(a);
    UrlRoundTrip(b);
  }

  /** A non-digit followed by digits splits back at the digits. */
  lemma SplitDigits(u: string, t: string)
    requires |u| > 0 && !IsDigit(u[|u| - 1])
    requires AllDigits(t)
    ensures TrailingRun(u + t, IsDigit) == |t|
    ensures (u + t)[..|u|] == u && (u + t)[|u|..] == t
  {
    TrailingRunAfterStop(u, t, IsDigit);
  }

  lemma StripAppended(a: string, b: string)
    ensures StripSuffix(a + b, b) == Some(a)
  {
    assert (a + b)[|a|..] == b && (a + b)[..|a|] == a;
  }

  lemma StripMismatch(s: string, tail: string)
    requires |s| > 0 && |tail| > 0 && s[|s| - 1] != tail[|tail| - 1]
    ensures StripSuffix(s, tail) == None
  {
    if |s| >= |tail| {
      assert s[|s| - |tail|..][|tail| - 1] == s[|s| - 1];
    }
  }

  /** Parsing a line assembled from a name, a prefix and a digit string. */
  lemma ParseAssembled(name: string, prefix: string, n: nat)
    requires prefix == PublicPrefix || prefix == ClubPrefix
    ensures ParseClosedLine(name + Separator + prefix + NatToString(n))
      == Some((name, if prefix == PublicPrefix then n as int else -(n as int)))
  {
    var t := NatToString(n);
    var head := name + Separator + prefix;
    assert head[|head| - 1] == prefix[|prefix| - 1];
    SplitDigits(head, t);
    var line := head + t;
    assert line[..|line| - |t|] == head && line[|line| - |t|..] == t;
    ParseNatToString(n);
    StripAppended(name + Separator, prefix);
    StripAppended(name, Separator);
    if prefix == ClubPrefix {
      StripMismatch(head, PublicPrefix);
    }
  }

  /** A closed line is the name, the separator, the prefix the id's sign selects and the id's digits. */
  lemma ClosedLineParts(g: RawGroup)
    ensures ClosedLine(g)
      == NameOf(g) + Separator + (if g.id > 0 then PublicPrefix else ClubPrefix) + NatToString(Canon(g.id))
  {
    var prefix := if g.id > 0 then PublicPrefix else ClubPrefix;
    var t := NatToString(Canon(g.id));
    assert IntToString(Canon(g.id)) == t;
    assert Url(g.id) == prefix + t;
    assert NameOf(g) + Separator + (prefix + t) == NameOf(g) + Separator + prefix + t;
  }

  lemma ClosedLineRoundTrip(g: RawGroup)
    ensures ParseClosedLine(ClosedLine(g)) == Some((NameOf(g), g.id))
  {
    ClosedLineParts(g);
    ParseAssembled(NameOf(g), if g.id > 0 then PublicPrefix else ClubPrefix, Canon(g.id));
  }

  lemma FailureLineRoundTrip(name: string, gid: nat)
    ensures ParseFailureLine(FailureLine(name, gid)) == Some((name, gid))
  {
    var line := FailureLine(name, gid);
    var u := name + IdTag;
    var t := NatToString(gid);
    var body := line[..|line| - 1];
    assert body == u + t;
    TrailingRunAfterStop(u, t, IsDigit);
    assert body[..|body| - |t|] == u;
    assert body[|body| - |t|..] == t;
    ParseNatToString(gid);
    assert u[..|u| - |IdTag|] == name;
  }
}
