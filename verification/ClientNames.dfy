/** What a client calls itself: the credential in front, the session and other parameters behind it. */
module ClientNames {
  import opened Common
  import opened Proxies
  import opened LocalProxySpec
  import Base64

  datatype ClientName = ClientName(credential: string, parameters: seq<(string, string)>)

  // ----- the credential -----

  /**
   * A known name is the whole of the client's name, or a prefix of it with a dash behind. Of two prefixes of
   * one name the longer in bytes is the longer in characters.
   */
  predicate Matches(name: string, candidate: string) {
    name == candidate || (|name| > |candidate| && candidate <= name && name[|candidate|] == '-')
  }

  /** `filter(..).max_by_key(len)`: the last of the longest. */
  function Longest(name: string, known: seq<string>): Option<string> {
    if known == [] then None
    else
      var n := |known| - 1;
      var best := Longest(name, known[..n]);
      if !Matches(name, known[n]) || (best.Some? && |best.value| > |known[n]|) then best else Some(known[n])
  }

  /** The credential is the one longest known name that matches, however often it is listed. */
  lemma {:induction false} LongestIsUnique(name: string, known: seq<string>)
    ensures Longest(name, known).None? <==> forall i :: 0 <= i < |known| ==> !Matches(name, known[i])
    ensures Longest(name, known).Some? ==>
              var c := Longest(name, known).value;
              c in known && Matches(name, c)
              && forall i :: 0 <= i < |known| && Matches(name, known[i]) ==> |known[i]| < |c| || known[i] == c
  {
    if known != [] {
      var n := |known| - 1;
      LongestIsUnique(name, known[..n]);
      assert forall i :: 0 <= i < n ==> known[..n][i] == known[i];
      var best := Longest(name, known[..n]);
      if best.Some? && Matches(name, known[n]) && |best.value| == |known[n]| {
        assert best.value == name[..|best.value|] == known[n];
      }
    }
  }

  // ----- the parameters -----

  const KEYS: seq<string> := ["session", "country", "protocol", "sticky"]

  predicate IsKey(part: string) {
    exists i :: 0 <= i < |KEYS| && EqIgnoreCase(KEYS[i], part)
  }

  /** The length of the dash-free run a string starts with. */
  function DashFree(s: string): (n: nat)
    ensures n <= |s| && '-' !in s[..n] && (n < |s| ==> s[n] == '-')
  {
    if s == "" || s[0] == '-' then 0
    else
      assert s[..1 + DashFree(s[1..])] == [s[0]] + s[1..][..DashFree(s[1..])];
      1 + DashFree(s[1..])
  }

  /** `split('-').filter(non-empty)`. */
  function Parts(s: string): seq<string>
    decreases |s|
  {
    if s == "" then []
    else if s[0] == '-' then Parts(s[1..])
    else
      var n := DashFree(s);
      [s[..n]] + Parts(s[n..])
  }

  function Flushed(key: Option<string>): seq<(string, string)> {
    if key.Some? then [(key.value, "")] else []
  }

  /**
   * A key starts a parameter and ends the one before it; any other part is a value, of `session` if of
   * nothing else.
   */
  function Parameters(parts: seq<string>, key: Option<string>): seq<(string, string)> {
    if parts == [] then Flushed(key)
    else if IsKey(parts[0]) then Flushed(key) + Parameters(parts[1..], Some(parts[0]))
    else [(if key.Some? then key.value else "session", parts[0])] + Parameters(parts[1..], None)
  }

  method ParseParameters(rest: string) returns (parameters: seq<(string, string)>)
    ensures parameters == Parameters(Parts(rest), None)
  {
    hide Parts, IsKey, Parameters;
    var parts := Parts(rest);
    parameters := [];
    var current: Option<string> := None;
    assert parts[0..] == parts;
    for k := 0 to |parts|
      invariant Parameters(parts, None) == parameters + Parameters(parts[k..], current)
    {
      var part := parts[k];
      ParametersNext(parts, k, current);
      if IsKey(part) {
        Regrouped(parameters, Flushed(current), Parameters(parts[k + 1..], Some(part)));
        if current.Some? {
          parameters := parameters + [(current.value, "")];
        }
        current := Some(part);
      } else {
        var parameter := (if current.Some? then current.value else "session", part);
        Regrouped(parameters, [parameter], Parameters(parts[k + 1..], None));
        parameters := parameters + [parameter];
        current := None;
      }
    }
    assert parts[|parts|..] == [];
    NoParts(current);
    parameters := parameters + Flushed(current);
  }

  lemma Regrouped<T>(a: seq<T>, b: seq<T>, c: seq<T>)
    ensures a + (b + c) == (a + b) + c && a + [] == a
  {
  }

  lemma NoParts(key: Option<string>)
    ensures Parameters([], key) == Flushed(key)
  {
  }

  lemma ParametersNext(parts: seq<string>, k: nat, current: Option<string>)
    requires k < |parts|
    ensures Parameters(parts[k..], current)
            == if IsKey(parts[k]) then Flushed(current) + Parameters(parts[k + 1..], Some(parts[k]))
               else [(if current.Some? then current.value else "session", parts[k])]
                    + Parameters(parts[k + 1..], None)
  {
    assert parts[k..][0] == parts[k] && parts[k..][1..] == parts[k + 1..];
  }

  /** `char::is_whitespace`, in any script. */
  predicate IsSpace(c: char) {
    Base64.IsSpace(c as int)
  }

  function TrimStart(s: string): string {
    if s != "" && IsSpace(s[0]) then TrimStart(s[1..]) else s
  }

  function TrimEnd(s: string): string {
    if s != "" && IsSpace(s[|s| - 1]) then TrimEnd(s[..|s| - 1]) else s
  }

  function DropDashes(s: string): string {
    if s != "" && s[0] == '-' then DropDashes(s[1..]) else s
  }

  function CredentialOf(name: string, known: seq<string>): string {
    var longest := Longest(name, known);
    if longest.Some? then longest.value else name
  }

  function Parse(username: string, known: seq<string>): ClientName {
    var name := TrimEnd(TrimStart(username));
    var credential := CredentialOf(name, known);
    var rest := if credential <= name then name[|credential|..] else "";
    ClientName(credential, Parameters(Parts(DropDashes(rest)), None))
  }

  /** The first parameter of that name, in any case. */
  function Parameter(parameters: seq<(string, string)>, key: string): Option<string> {
    if parameters == [] then None
    else if EqIgnoreCase(parameters[0].0, key) then Some(parameters[0].1)
    else Parameter(parameters[1..], key)
  }

  function SessionOf(n: ClientName): string {
    var s := Parameter(n.parameters, "session");
    if s.Some? then s.value else "default"
  }

  function SessionKey(credential: string, session: string): string {
    credential + ":" + session
  }

  // ----- parsing back -----

  lemma WholeIsDashFree(s: string)
    requires '-' !in s
    ensures DashFree(s) == |s|
  {
  }

  lemma SessionIsKey()
    ensures IsKey("session") && EqIgnoreCase("session", "session")
  {
    assert EqIgnoreCase(KEYS[0], "session");
  }

  lemma {:induction false} RunEndsAtDash(a: string, b: string)
    requires '-' !in a
    ensures DashFree(a + "-" + b) == |a|
  {
    var s := a + "-" + b;
    if a != "" {
      assert s[0] == a[0] && s[1..] == a[1..] + "-" + b;
      RunEndsAtDash(a[1..], b);
    }
  }

  /** Behind `session-`, the parts are `session` and those of the value. */
  lemma SessionParts(v: string)
    ensures Parts("session-" + v) == ["session"] + Parts(v)
  {
    var s := "session-" + v;
    assert s == "session" + "-" + v;
    RunEndsAtDash("session", v);
    assert s[..7] == "session" && s[7..][0] == '-' && s[7..][1..] == v;
  }

  /** Every part is dash-free and not empty. */
  lemma {:induction false} PartsAreDashFree(s: string)
    ensures forall i :: 0 <= i < |Parts(s)| ==> Parts(s)[i] != "" && '-' !in Parts(s)[i]
    decreases |s|
  {
    if s != "" {
      if s[0] == '-' {
        PartsAreDashFree(s[1..]);
      } else {
        PartsAreDashFree(s[DashFree(s)..]);
      }
    }
  }

  lemma DashFreeIsOnePart(v: string)
    requires v != "" && '-' !in v
    ensures Parts(v) == [v]
  {
    WholeIsDashFree(v);
    assert v[..|v|] == v && v[|v|..] == "";
    assert v[0] in v;
    assert Parts(v) == [v] + Parts("");
  }

  /** Parameters written out, each key and each value with a dash behind it. */
  function Written(parameters: seq<(string, string)>): string {
    if parameters == [] then "" else parameters[0].0 + "-" + (parameters[0].1 + "-" + Written(parameters[1..]))
  }

  /** A key of the four there are, in any case, and a value without a dash that is no key itself. */
  predicate Sayable(parameter: (string, string)) {
    && (EqIgnoreCase("session", parameter.0) || EqIgnoreCase("country", parameter.0)
        || EqIgnoreCase("protocol", parameter.0) || EqIgnoreCase("sticky", parameter.0))
    && parameter.1 != "" && '-' !in parameter.1 && !IsKey(parameter.1)
  }

  lemma KeyIsDashFree(key: string, part: string)
    requires EqIgnoreCase(key, part) && key in KEYS
    ensures '-' !in part && part != "" && IsKey(part)
  {
    var k :| 0 <= k < |KEYS| && KEYS[k] == key;
    forall i | 0 <= i < |part| ensures part[i] != '-' {
      assert Lower(key[i]) == Lower(part[i]) && key[i] != '-';
    }
  }

  lemma FourKeys(parameter: (string, string))
    requires Sayable(parameter)
    ensures '-' !in parameter.0 && parameter.0 != "" && IsKey(parameter.0)
  {
    assert KEYS[0] == "session" && KEYS[1] == "country" && KEYS[2] == "protocol" && KEYS[3] == "sticky";
    var key :| key in KEYS && EqIgnoreCase(key, parameter.0);
    KeyIsDashFree(key, parameter.0);
  }

  /** A part in front of a dash is the first part. */
  lemma FirstPart(a: string, b: string)
    requires a != "" && '-' !in a
    ensures Parts(a + "-" + b) == [a] + Parts(b)
  {
    var s := a + "-" + b;
    RunEndsAtDash(a, b);
    assert s[0] == a[0] && a[0] in a;
    assert s[..|a|] == a && s[|a|..][0] == '-' && s[|a|..][1..] == b;
  }

  /** Whatever parameters are written out are read back, all of them and in their order. */
  lemma {:induction false} ParametersComeBack(parameters: seq<(string, string)>)
    requires forall i :: 0 <= i < |parameters| ==> Sayable(parameters[i])
    ensures Parameters(Parts(Written(parameters)), None) == parameters
  {
    hide Parts, IsKey;
    if parameters == [] {
      NothingHasNoParts();
    } else {
      var p, rest := parameters[0], Written(parameters[1..]);
      ParametersComeBack(parameters[1..]);
      FourKeys(p);
      FirstPart(p.0, p.1 + "-" + rest);
      FirstPart(p.1, rest);
      var parts := Parts(Written(parameters));
      assert parts == [p.0] + ([p.1] + Parts(rest));
      assert parts[0] == p.0 && parts[1..][0] == p.1 && parts[1..][1..] == Parts(rest);
      assert Parameters(parts, None) == [] + Parameters(parts[1..], Some(p.0));
      assert Parameters(parts[1..], Some(p.0)) == [p] + Parameters(Parts(rest), None);
    }
  }

  /** What follows `session-` as the session's value: the first part, or nothing if that is a keyword. */
  lemma SessionValue(parts: seq<string>)
    ensures Parameter(Parameters(["session"] + parts, None), "session")
            == Some(if parts == [] || IsKey(parts[0]) then "" else parts[0])
  {
    SessionIsKey();
    var all := ["session"] + parts;
    assert all[1..] == parts;
    assert Flushed(None) + Parameters(parts, Some("session")) == Parameters(parts, Some("session"));
    assert Parameters(parts, Some("session")) != [];
    if parts != [] && IsKey(parts[0]) {
      assert Parameters(parts, Some("session"))[0] == ("session", "");
    }
  }

  /**
   * A client that appends `-session-` and a value to its credential gets that credential, and that
   * session exactly when the value holds no dash, is no keyword and ends in no white space: white space
   * is trimmed off, and the rest of a dashed value becomes parameters of its own.
   */
  lemma NameParsesBackIff(credential: string, v: string, known: seq<string>)
    requires Longest(TrimEnd(TrimStart(credential + "-session-" + v)), known) == Some(credential)
    ensures var n := Parse(credential + "-session-" + v, known);
            n.credential == credential && (SessionOf(n) == v <==> '-' !in v && !IsKey(v) && TrimEnd(v) == v)
  {
    hide Parts, Parameters, Longest, IsKey, IsSpace, TrimStart, TrimEnd, DropDashes, EqIgnoreCase;
    var w := TrimEnd(v);
    NameIsTrimmed(credential, v, known);
    var name := credential + "-session-" + w;
    assert name[|credential|..] == "-session-" + w;
    SessionTail(w);
    SessionParts(w);
    SessionValue(Parts(w));
    PartsAreDashFree(w);
    PartsAreShort(w);
    if w == "" {
      NothingHasNoParts();
    } else if '-' !in w {
      DashFreeIsOnePart(w);
    }
  }

  /** Only the value is trimmed: the credential that matches starts with no white space. */
  lemma NameIsTrimmed(credential: string, v: string, known: seq<string>)
    requires Longest(TrimEnd(TrimStart(credential + "-session-" + v)), known) == Some(credential)
    ensures TrimEnd(TrimStart(credential + "-session-" + v)) == credential + "-session-" + TrimEnd(v)
    ensures |TrimEnd(v)| <= |v| && (TrimEnd(v) == v || |TrimEnd(v)| < |v|)
  {
    var name := credential + "-session-" + v;
    TrimmedStart(name);
    TrimmedEnd(TrimStart(name));
    LongestIsUnique(TrimEnd(TrimStart(name)), known);
    assert credential <= TrimEnd(TrimStart(name));
    assert name[0] == if credential == "" then '-' else credential[0];
    TrimEndKeeps(credential + "-session-", v);
    TrimmedEnd(v);
  }

  lemma {:induction false} TrimmedStart(s: string)
    ensures TrimStart(s) != "" ==> !IsSpace(TrimStart(s)[0])
    ensures s != "" && !IsSpace(s[0]) ==> TrimStart(s) == s
  {
    if s != "" && IsSpace(s[0]) {
      TrimmedStart(s[1..]);
    }
  }

  lemma {:induction false} TrimmedEnd(s: string)
    ensures TrimEnd(s) <= s
  {
    if s != "" && IsSpace(s[|s| - 1]) {
      TrimmedEnd(s[..|s| - 1]);
    }
  }

  lemma {:induction false} TrimEndKeeps(a: string, v: string)
    requires a != "" && !IsSpace(a[|a| - 1])
    ensures TrimEnd(a + v) == a + TrimEnd(v)
  {
    if v == "" {
      assert a + v == a;
    } else {
      assert (a + v)[|a + v| - 1] == v[|v| - 1];
      if IsSpace(v[|v| - 1]) {
        assert (a + v)[..|a + v| - 1] == a + v[..|v| - 1];
        TrimEndKeeps(a, v[..|v| - 1]);
      }
    }
  }

  lemma {:induction false} PartsAreShort(s: string)
    ensures forall i :: 0 <= i < |Parts(s)| ==> |Parts(s)[i]| <= |s|
    decreases |s|
  {
    if s != "" {
      PartsAreShort(if s[0] == '-' then s[1..] else s[DashFree(s)..]);
    }
  }

  /** A name that no credential matches stands for itself, trimmed, and says nothing else. */
  lemma UnknownNameStands(username: string, known: seq<string>)
    requires Longest(TrimEnd(TrimStart(username)), known).None?
    ensures Parse(username, known) == ClientName(TrimEnd(TrimStart(username)), [])
  {
    hide TrimStart, TrimEnd, Longest;
    var name := TrimEnd(TrimStart(username));
    assert name[|name|..] == "";
    NothingHasNoParts();
  }

  /** For one: `work-session-x ` with a space behind is the session `x` of `work`. */
  lemma SpacedSessionIsTrimmed()
    ensures SessionOf(Parse("work-session-x ", ["work"])) != "x "
  {
    hide Parts, Parameters, Longest, DropDashes, SessionOf, TrimStart, TrimEnd;
    var v, name := "x ", "work" + "-session-" + "x ";
    assert name == "work-session-x ";
    SpaceIsTrimmed(name);
    NameParsesBackIff("work", v, ["work"]);
  }

  lemma SpaceIsTrimmed(name: string)
    requires name == "work-session-x "
    ensures TrimEnd("x ") != "x " && Longest(TrimEnd(TrimStart(name)), ["work"]) == Some("work")
  {
    hide Longest;
    var v := "x ";
    assert v[..1] == "x" && v[1] == ' ' && TrimEnd(v) == TrimEnd("x") == "x";
    assert name[..14] == "work-session-x" && name[14] == ' ' && name[13] == 'x' && name[0] == 'w';
    assert TrimStart(name) == name && TrimEnd(name) == TrimEnd(name[..14]) == name[..14];
    LongestOfOne("work-session-x", "work");
  }

  lemma LongestOfOne(name: string, candidate: string)
    requires Matches(name, candidate)
    ensures Longest(name, [candidate]) == Some(candidate)
  {
    assert [candidate][..0] == [] && Longest(name, []) == None;
  }

  /** For one: `work-session-a-b` is not the session `a-b` of `work`. */
  lemma DashedSessionIsCut()
    ensures SessionOf(Parse("work-session-a-b", ["work"])) != "a-b"
  {
    hide Parts, Parameters;
    var name := "work" + "-session-" + "a-b";
    assert name == "work-session-a-b" && |name| == 16 && name[0] == 'w' && name[15] == 'b';
    assert "work" <= name && name[4] == '-';
    LongestOfOne(name, "work");
    assert "a-b"[1] == '-';
    NameParsesBackIff("work", "a-b", ["work"]);
  }

  lemma SessionTail(v: string)
    ensures DropDashes("-session-" + v) == "session-" + v
  {
    var rest := "-session-" + v;
    assert rest[0] == '-' && rest[1..] == "session-" + v && rest[1..][0] == 's';
  }

  lemma NothingHasNoParts()
    ensures Parts("") == [] && !IsKey("")
  {
  }

  /** A client that asks for nothing has the default session. */
  lemma BareNameHasDefaultSession(credential: string, known: seq<string>)
    requires TrimEnd(TrimStart(credential)) == credential && credential in known
    ensures Parse(credential, known) == ClientName(credential, [])
    ensures SessionOf(Parse(credential, known)) == "default"
  {
    LongestIsUnique(credential, known);
    var c := Longest(credential, known);
    var i :| 0 <= i < |known| && known[i] == credential;
    assert Matches(credential, known[i]);
    assert c == Some(credential);
    assert credential[|credential|..] == "" && DropDashes("") == "";
  }

  // ----- session keys -----

  lemma FirstColon(a: string, s: string, b: string, t: string)
    requires ':' !in a && ':' !in b && a + ":" + s <= b + ":" + t
    ensures a == b
  {
    var x, y := a + ":" + s, b + ":" + t;
    assert forall i :: 0 <= i < |x| ==> x[i] == y[i];
    assert forall i :: 0 <= i < |a| ==> x[i] == a[i];
    assert forall i :: 0 <= i < |b| ==> y[i] == b[i];
    assert x[|a|] == ':' && y[|b|] == ':';
    assert |a| == |b|;
  }

  /** Two clients share a session only if they are the same credential asking for the same session. */
  lemma SessionKeysAreInjective(a: string, s: string, b: string, t: string)
    requires ':' !in a && ':' !in b && SessionKey(a, s) == SessionKey(b, t)
    ensures a == b && s == t
  {
    FirstColon(a, s, b, t);
    assert SessionKey(a, s)[|a| + 1..] == s && SessionKey(b, t)[|b| + 1..] == t;
  }

  // ----- what a header can say -----

  function BeforeColon(s: string): Option<string> {
    if s == "" then None
    else if s[0] == ':' then Some("")
    else
      var rest := BeforeColon(s[1..]);
      if rest.None? then None else Some([s[0]] + rest.value)
  }

  /** The name in a Basic header: decoded, read as text, and split at the first colon. */
  function HeaderName(encoded: seq<Base64.Code>, text: seq<Byte> -> string): Option<string> {
    var decoded := Base64.Decoded(encoded);
    if decoded.None? then None else BeforeColon(text(decoded.value))
  }

  lemma {:induction false} NoColonBefore(s: string)
    ensures BeforeColon(s).Some? ==> ':' !in BeforeColon(s).value
  {
    if s != "" && s[0] != ':' {
      NoColonBefore(s[1..]);
    }
  }

  lemma {:induction false} PartsAreInside(s: string)
    requires ':' !in s
    ensures forall i :: 0 <= i < |Parts(s)| ==> ':' !in Parts(s)[i]
    decreases |s|
  {
    if s != "" {
      PartsAreInside(if s[0] == '-' then s[1..] else s[DashFree(s)..]);
    }
  }

  lemma {:induction false} ValuesAreInside(parts: seq<string>, key: Option<string>, name: string)
    requires forall i :: 0 <= i < |parts| ==> ':' !in parts[i]
    ensures var v := Parameter(Parameters(parts, key), name); v.Some? ==> ':' !in v.value
  {
    if parts != [] {
      var next := if IsKey(parts[0]) then Some(parts[0]) else None;
      ValuesAreInside(parts[1..], next, name);
      var rest := Parameters(parts[1..], next);
      if !IsKey(parts[0]) {
        assert ([(if key.Some? then key.value else "session", parts[0])] + rest)[1..] == rest;
      } else if key.Some? {
        assert ([(key.value, "")] + rest)[1..] == rest;
      } else {
        assert Flushed(key) + rest == rest;
      }
    }
  }

  lemma {:induction false} TrimStartIsInside(s: string)
    requires ':' !in s
    ensures ':' !in TrimStart(s)
  {
    if s != "" && IsSpace(s[0]) {
      TrimStartIsInside(s[1..]);
    }
  }

  lemma {:induction false} TrimEndIsInside(s: string)
    requires ':' !in s
    ensures ':' !in TrimEnd(s)
  {
    if s != "" && IsSpace(s[|s| - 1]) {
      TrimEndIsInside(s[..|s| - 1]);
    }
  }

  /** The credential and the session a header asks for hold no colon, whatever the header and the known names. */
  lemma HeaderKeysAreColonFree(encoded: seq<Base64.Code>, text: seq<Byte> -> string, known: seq<string>)
    requires HeaderName(encoded, text).Some?
    ensures var n := Parse(HeaderName(encoded, text).value, known);
            ':' !in n.credential && ':' !in SessionOf(n)
  {
    NoColonBefore(text(Base64.Decoded(encoded).value));
    ParsedIsColonFree(HeaderName(encoded, text).value, known);
  }

  lemma ParsedIsColonFree(username: string, known: seq<string>)
    requires ':' !in username
    ensures var n := Parse(username, known); ':' !in n.credential && ':' !in SessionOf(n)
  {
    TrimStartIsInside(username);
    TrimEndIsInside(TrimStart(username));
    var name := TrimEnd(TrimStart(username));
    assert ':' !in name;
    LongestIsUnique(name, known);
    var credential := CredentialOf(name, known);
    assert credential <= name;
    DropIsInside(name[|credential|..]);
    var parts := Parts(DropDashes(name[|credential|..]));
    PartsAreInside(DropDashes(name[|credential|..]));
    ValuesAreInside(parts, None, "session");
    assert ':' !in "default";
  }

  lemma {:induction false} DropIsInside(s: string)
    requires ':' !in s
    ensures ':' !in DropDashes(s)
  {
    if s != "" && s[0] == '-' {
      DropIsInside(s[1..]);
    }
  }

  // ----- turning a credential over -----

  /**
   * Which sessions go when a credential is turned over, for any names: its own, those of an owner that
   * starts with it and a colon, and those that repeat the rest of it in their session.
   */
  lemma KeyIsDroppedIff(l: Local, credential: string, owner: string, session: string)
    requires SessionKey(owner, session) in l.sessions
    ensures SessionKey(owner, session) !in RotateCredential(l, credential).sessions
            <==> || owner == credential
                 || credential + ":" <= owner
                 || (owner + ":" <= credential && credential[|owner| + 1..] + ":" <= session)
  {
    var key, prefix := SessionKey(owner, session), credential + ":";
    assert SessionKey(owner, session) !in RotateCredential(l, credential).sessions <==> prefix <= key;
    if |credential| == |owner| {
      assert key[..|owner|] == owner && key[|owner|] == ':';
      assert prefix <= key <==> credential == owner;
    } else if |credential| < |owner| {
      assert key[..|prefix|] == owner[..|prefix|];
    } else {
      assert key[..|owner| + 1] == owner + ":" && key[|owner| + 1..] == session;
      var rest := credential[|owner| + 1..];
      if owner + ":" <= credential {
        assert prefix == owner + ":" + (rest + ":");
        assert prefix <= key <==> rest + ":" <= session;
      } else if prefix <= key {
        assert false;
      }
    }
  }

  lemma ColonInside(a: string, b: string)
    requires a + ":" <= b
    ensures ':' in b
  {
    assert b[|a|] == ':';
  }

  /** So of the sessions that headers ask for, turning any credential over drops its own and no others. */
  lemma RotationDropsExactlyItsSessions(l: Local, credential: string, owner: string, session: string)
    requires ':' !in owner && ':' !in session && SessionKey(owner, session) in l.sessions
    ensures SessionKey(owner, session) in RotateCredential(l, credential).sessions <==> owner != credential
  {
    KeyIsDroppedIff(l, credential, owner, session);
    if credential + ":" <= owner {
      ColonInside(credential, owner);
      assert false;
    }
    if owner + ":" <= credential && credential[|owner| + 1..] + ":" <= session {
      ColonInside(credential[|owner| + 1..], session);
      assert false;
    }
  }

  /** But a client without a credential is held under its address: one over IPv6 goes with a credential `2001`. */
  lemma PeerIsDroppedWithACredential(l: Local)
    requires SessionKey("2001:db8::1", "default") in l.sessions
    ensures SessionKey("2001:db8::1", "default") !in RotateCredential(l, "2001").sessions
  {
    KeyIsDroppedIff(l, "2001", "2001:db8::1", "default");
    assert "2001" + ":" == "2001:" && "2001:db8::1"[..5] == "2001:";
  }
}
