/**
 LDAP search filters as strings (section 3 of RFC 4515): escaping, a parser, and what a parsed
 filter says about one service.
 */
module LdapFilter {
  import opened Common

  datatype SearchFilter =
    | And(args: seq<SearchFilter>)
    | Or(args: seq<SearchFilter>)
    | Not(arg: SearchFilter)
    | Item(text: string)

  const SCOPE_ATTRIBUTE := "plugin.scope_id"

  // ------------------------------------------------------------ escaping

  function EscapeChar(c: char): string {
    match c
    case '\\' => "\\5c"
    case '*' => "\\2a"
    case '(' => "\\28"
    case ')' => "\\29"
    case '\0' => "\\00"
    case _ => [c]
  }

  function Escape(value: string): string {
    if value == "" then "" else EscapeChar(value[0]) + Escape(value[1..])
  }

  function HexDigit(c: char): Option<int> {
    if '0' <= c <= '9' then Some(c as int - '0' as int)
    else if 'a' <= c <= 'f' then Some(c as int - 'a' as int + 10)
    else if 'A' <= c <= 'F' then Some(c as int - 'A' as int + 10)
    else None
  }

  /** Hexadecimal digits count in either case. */
  lemma HexDigitIff(c: char, n: int)
    ensures HexDigit(c) == Some(n)
            <==> 0 <= n < 16 && (c == "0123456789abcdef"[n] || c == "0123456789ABCDEF"[n])
  {
  }

  /** Reads back an assertion value: a backslash must be followed by two hexadecimal digits. */
  function Unescape(s: string): Option<string> {
    if s == "" then Some("")
    else if s[0] == '\\' then
      if |s| < 3 || HexDigit(s[1]).None? || HexDigit(s[2]).None? then None
      else
        match Unescape(s[3..])
        case None => None
        case Some(rest) => Some([(16 * HexDigit(s[1]).value + HexDigit(s[2]).value) as char] + rest)
    else
      match Unescape(s[1..])
      case None => None
      case Some(rest) => Some([s[0]] + rest)
  }

  lemma EscapeCharReads(c: char, t: string)
    ensures Unescape(EscapeChar(c) + t)
            == match Unescape(t) case None => None case Some(rest) => Some([c] + rest)
  {
    var s := EscapeChar(c) + t;
    if |EscapeChar(c)| == 3 {
      assert s[0] == '\\' && s[3..] == t;
      assert HexDigit(s[1]).Some? && HexDigit(s[2]).Some?;
    } else {
      assert s[1..] == t;
    }
  }

  /** Escaping loses nothing, on any string. */
  lemma {:induction false} EscapeRoundTrip(value: string)
    ensures Unescape(Escape(value)) == Some(value)
  {
    if value != "" {
      EscapeRoundTrip(value[1..]);
      EscapeCharReads(value[0], Escape(value[1..]));
      assert value == [value[0]] + value[1..];
    }
  }

  /** Escaping works on one character at a time, and replaces five of them by their codes. */
  lemma {:induction false} EscapeJoins(s: string, t: string)
    ensures Escape(s + t) == Escape(s) + Escape(t)
    ensures |s| == 1 && s[0] !in "\\*()\0" ==> Escape(s) == s
    ensures Escape("\\") == "\\5c" && Escape("*") == "\\2a" && Escape("(") == "\\28" && Escape(")") == "\\29"
            && Escape("\0") == "\\00"
  {
    if s == "" {
      assert s + t == t;
    } else {
      assert (s + t)[1..] == s[1..] + t;
      EscapeJoins(s[1..], t);
    }
  }

  /** A character that can stand for itself inside a filter item. */
  predicate Plain(c: char) {
    c != '(' && c != ')' && c != '\0'
  }

  lemma {:induction false} EscapeIsPlain(value: string)
    ensures forall i :: 0 <= i < |Escape(value)| ==> Plain(Escape(value)[i]) && Escape(value)[i] != '*'
  {
    if value != "" {
      EscapeIsPlain(value[1..]);
    }
  }

  // ------------------------------------------------------------ items

  /** The position of the first equals sign, or the length. */
  function EqualsSign(s: string): (i: nat)
    ensures i <= |s|
    ensures forall j :: 0 <= j < i ==> s[j] != '='
    ensures i < |s| ==> s[i] == '='
  {
    if s == "" || s[0] == '=' then 0 else 1 + EqualsSign(s[1..])
  }

  predicate ValidItem(text: string) {
    var i := EqualsSign(text);
    0 < i < |text| && Unescape(text[i + 1..]).Some?
  }

  /** The length of the longest plain prefix. */
  function PlainPrefix(s: string): (n: nat)
    ensures n <= |s|
    ensures forall i :: 0 <= i < n ==> Plain(s[i])
    ensures n < |s| ==> !Plain(s[n])
  {
    if s == "" || !Plain(s[0]) then 0 else 1 + PlainPrefix(s[1..])
  }

  // ------------------------------------------------------------ parsing

  datatype Parsed = Parsed(filter: SearchFilter, rest: string)

  datatype ParsedList = ParsedList(filters: seq<SearchFilter>, rest: string)

  /** Reads one filter off the front of a string. */
  function Parse(s: string): (p: Option<Parsed>)
    ensures p.Some? ==> |p.value.rest| < |s|
    decreases |s|, 0
  {
    if |s| < 2 || s[0] != '(' then None
    else if s[1] == '&' || s[1] == '|' then
      match ParseList(s[2..])
      case None => None
      case Some(l) =>
        if l.filters == [] || l.rest == "" || l.rest[0] != ')' then None
        else Some(Parsed(if s[1] == '&' then And(l.filters) else Or(l.filters), l.rest[1..]))
    else if s[1] == '!' then
      match Parse(s[2..])
      case None => None
      case Some(p) =>
        if p.rest == "" || p.rest[0] != ')' then None else Some(Parsed(Not(p.filter), p.rest[1..]))
    else
      var n := PlainPrefix(s[1..]);
      var text, rest := s[1..][..n], s[1..][n..];
      if rest == "" || rest[0] != ')' || !ValidItem(text) then None else Some(Parsed(Item(text), rest[1..]))
  }

  function ParseList(s: string): (p: Option<ParsedList>)
    ensures p.Some? ==> |p.value.rest| <= |s|
    decreases |s|, 1
  {
    if s == "" || s[0] != '(' then Some(ParsedList([], s))
    else
      match Parse(s)
      case None => None
      case Some(first) =>
        match ParseList(first.rest)
        case None => None
        case Some(others) => Some(ParsedList([first.filter] + others.filters, others.rest))
  }

  predicate WellFormed(s: string) {
    Parse(s).Some? && Parse(s).value.rest == ""
  }

  function FilterOf(s: string): SearchFilter
    requires WellFormed(s)
  {
    Parse(s).value.filter
  }

  lemma {:induction false} PlainPrefixStops(s: string, t: string)
    requires forall i :: 0 <= i < |s| ==> Plain(s[i])
    requires t != "" && !Plain(t[0])
    ensures PlainPrefix(s + t) == |s|
  {
    if s == "" {
      assert s + t == t;
    } else {
      assert (s + t)[1..] == s[1..] + t;
      PlainPrefixStops(s[1..], t);
    }
  }

  predicate IsItemText(text: string) {
    && ValidItem(text) && text[0] != '&' && text[0] != '|' && text[0] != '!'
    && forall i :: 0 <= i < |text| ==> Plain(text[i])
  }

  lemma Split(a: string, b: string)
    ensures (a + b)[..|a|] == a && (a + b)[|a|..] == b
  {
  }

  /** What is in parentheses and no group is an item up to the first special character. */
  lemma ParseOfItem(u: string)
    requires u != "" && u[0] != '&' && u[0] != '|' && u[0] != '!'
    ensures var text, rest := u[..PlainPrefix(u)], u[PlainPrefix(u)..];
            Parse("(" + u) == if rest == "" || rest[0] != ')' || !ValidItem(text) then None
                              else Some(Parsed(Item(text), rest[1..]))
  {
    Split("(", u);
    hide PlainPrefix, ValidItem, ParseList;
  }

  /** An item in parentheses is read as that item, whatever follows. */
  lemma ItemParses(text: string, rest: string)
    requires IsItemText(text)
    ensures Parse("(" + text + ")" + rest) == Some(Parsed(Item(text), rest))
  {
    var tail := ")" + rest;
    assert "(" + text + ")" + rest == "(" + (text + tail);
    PlainPrefixStops(text, tail);
    Split(text, tail);
    Split(")", rest);
    hide PlainPrefix, ValidItem, ParseList, Parse;
    ParseOfItem(text + tail);
  }

  /** Every item that is read has that shape. */
  lemma ItemShape(s: string) returns (text: string)
    requires Parse(s).Some? && s[1] != '&' && s[1] != '|' && s[1] != '!'
    ensures IsItemText(text) && Parse(s).value.filter == Item(text)
    ensures s == "(" + text + ")" + Parse(s).value.rest
  {
    var u := s[1..];
    text := u[..PlainPrefix(u)];
    var tail := u[PlainPrefix(u)..];
    hide PlainPrefix, ValidItem, ParseList;
    assert u == text + tail && tail == ")" + tail[1..] && s == "(" + u;
  }

  lemma DropJoin(s: string, t: string, n: nat)
    requires n <= |s|
    ensures (s + t)[n..] == s[n..] + t
  {
  }

  /** What follows a filter never changes how it is read. */
  lemma {:induction false} ParseExtends(s: string, t: string)
    requires Parse(s).Some?
    ensures Parse(s + t) == Some(Parsed(Parse(s).value.filter, Parse(s).value.rest + t))
    decreases |s|, 1
  {
    hide PlainPrefix, ValidItem, ParseList;
    if s[1] == '&' || s[1] == '|' {
      ParseGroupExtends(s, t);
    } else if s[1] == '!' {
      ParseNotExtends(s, t);
    } else {
      ParseItemExtends(s, t);
    }
  }

  lemma {:induction false} ParseNotExtends(s: string, t: string)
    requires Parse(s).Some? && s[1] == '!'
    ensures Parse(s + t) == Some(Parsed(Parse(s).value.filter, Parse(s).value.rest + t))
    decreases |s|, 0
  {
    hide PlainPrefix, ValidItem, ParseList;
    var p := Parse(s[2..]).value;
    DropJoin(s, t, 2);
    DropJoin(p.rest, t, 1);
    ParseExtends(s[2..], t);
  }

  lemma {:induction false} ParseGroupExtends(s: string, t: string)
    requires Parse(s).Some? && (s[1] == '&' || s[1] == '|')
    ensures Parse(s + t) == Some(Parsed(Parse(s).value.filter, Parse(s).value.rest + t))
    decreases |s|, 0
  {
    hide PlainPrefix, ValidItem, ParseList;
    var l := ParseList(s[2..]).value;
    DropJoin(s, t, 2);
    DropJoin(l.rest, t, 1);
    ParseListExtends(s[2..], t);
  }

  lemma Regroup4(a: string, b: string, c: string, d: string, t: string)
    ensures a + b + c + d + t == a + b + c + (d + t)
  {
  }

  lemma ParseItemExtends(s: string, t: string)
    requires Parse(s).Some? && s[1] != '&' && s[1] != '|' && s[1] != '!'
    ensures Parse(s + t) == Some(Parsed(Parse(s).value.filter, Parse(s).value.rest + t))
  {
    hide Parse, IsItemText;
    var text := ItemShape(s);
    ItemParses(text, Parse(s).value.rest + t);
    Regroup4("(", text, ")", Parse(s).value.rest, t);
  }

  lemma {:induction false} ParseListExtends(s: string, t: string)
    requires ParseList(s).Some? && ParseList(s).value.rest != "" && ParseList(s).value.rest[0] != '('
    ensures ParseList(s + t) == Some(ParsedList(ParseList(s).value.filters, ParseList(s).value.rest + t))
    decreases |s|, 2
  {
    hide Parse;
    if s[0] == '(' {
      ParseExtends(s, t);
      ParseListExtends(Parse(s).value.rest, t);
    }
  }

  /** A well-formed string that begins with a well-formed filter is that filter. */
  lemma NoProperPrefix(whole: string, prefix: string)
    requires WellFormed(whole) && WellFormed(prefix) && prefix <= whole
    ensures whole == prefix
  {
    var t := whole[|prefix|..];
    assert whole == prefix + t;
    ParseExtends(prefix, t);
  }

  /** A list of one more filter, followed by what ends the list. */
  lemma ListOfFilter(a: string, t: string)
    requires WellFormed(a) && ParseList(t).Some?
    ensures var others := ParseList(t).value;
            ParseList(a + t) == Some(ParsedList([FilterOf(a)] + others.filters, others.rest))
  {
    ParseExtends(a, t);
    assert "" + t == t;
  }

  lemma JoinIs(a: string, b: string)
    ensures var s := "(&" + a + b + ")";
            |s| > 2 && s[0] == '(' && s[1] == '&' && s[2..] == a + (b + ")")
  {
    assert "(&" + a + b + ")" == "(&" + (a + (b + ")"));
  }

  /** Two well-formed filters joined by `&` parse back to their conjunction. */
  lemma ConjunctionParses(a: string, b: string)
    requires WellFormed(a) && WellFormed(b)
    ensures WellFormed("(&" + a + b + ")")
    ensures FilterOf("(&" + a + b + ")") == And([FilterOf(a), FilterOf(b)])
  {
    JoinIs(a, b);
    ListOfFilter(b, ")");
    ListOfFilter(a, b + ")");
    assert ParseList(")") == Some(ParsedList([], ")"));
    assert [FilterOf(a)] + ([FilterOf(b)] + []) == [FilterOf(a), FilterOf(b)];
    assert ")"[1..] == "";
    hide ParseList, PlainPrefix, ValidItem;
  }

  // ------------------------------------------------------------ the visibility filter

  function Clause(scope: string): string {
    "(" + SCOPE_ATTRIBUTE + "=" + Escape(scope) + ")"
  }

  function Clauses(scopes: seq<string>): string {
    if scopes == [] then "" else Clause(scopes[0]) + Clauses(scopes[1..])
  }

  /** `(|(plugin.scope_id=a)(plugin.scope_id=b)...)` for the scopes a consumer may see. */
  function VisibilityFilter(scopes: seq<string>): string {
    "(|" + Clauses(scopes) + ")"
  }

  function ClauseItem(scope: string): SearchFilter {
    Item(SCOPE_ATTRIBUTE + "=" + Escape(scope))
  }

  function ClauseItems(scopes: seq<string>): seq<SearchFilter> {
    seq(|scopes|, i requires 0 <= i < |scopes| => ClauseItem(scopes[i]))
  }

  lemma {:induction false} EqualsSignAt(s: string, t: string)
    requires forall i :: 0 <= i < |s| ==> s[i] != '='
    ensures EqualsSign(s + "=" + t) == |s|
  {
    if s != "" {
      assert (s + "=" + t)[1..] == s[1..] + "=" + t;
      EqualsSignAt(s[1..], t);
    }
  }

  /** The item of a clause names the scope attribute and the scope itself. */
  lemma ClauseItemReads(scope: string)
    ensures var text := ClauseItem(scope).text;
            && EqualsSign(text) == |SCOPE_ATTRIBUTE|
            && text[..|SCOPE_ATTRIBUTE|] == SCOPE_ATTRIBUTE
            && text[|SCOPE_ATTRIBUTE| + 1..] == Escape(scope)
            && ValidItem(text)
  {
    EqualsSignAt(SCOPE_ATTRIBUTE, Escape(scope));
    EscapeRoundTrip(scope);
  }

  lemma Regroup(attribute: string, value: string, t: string)
    ensures "(" + attribute + "=" + value + ")" + t == "(" + (attribute + "=" + value) + ")" + t
  {
    assert "(" + attribute + "=" + value == "(" + (attribute + "=" + value);
  }

  /** Plain text after a first character that is no operator makes an item, once it is valid. */
  lemma PlainIsItem(attribute: string, value: string)
    requires attribute != "" && attribute[0] != '&' && attribute[0] != '|' && attribute[0] != '!'
    requires forall i :: 0 <= i < |attribute| ==> Plain(attribute[i])
    requires forall i :: 0 <= i < |value| ==> Plain(value[i])
    requires ValidItem(attribute + "=" + value)
    ensures IsItemText(attribute + "=" + value)
  {
    hide ValidItem;
  }

  lemma ClauseIsItem(scope: string)
    ensures IsItemText(ClauseItem(scope).text)
  {
    hide Escape, ValidItem, EqualsSign, IsItemText;
    ClauseItemReads(scope);
    EscapeIsPlain(scope);
    PlainIsItem(SCOPE_ATTRIBUTE, Escape(scope));
  }

  lemma ClauseParses(scope: string, t: string)
    ensures Parse(Clause(scope) + t) == Some(Parsed(ClauseItem(scope), t))
  {
    hide Parse, Escape, IsItemText;
    ClauseIsItem(scope);
    ItemParses(ClauseItem(scope).text, t);
    Regroup(SCOPE_ATTRIBUTE, Escape(scope), t);
  }

  lemma ClausesStart(scopes: seq<string>, t: string)
    requires scopes != []
    ensures Clauses(scopes) + t == Clause(scopes[0]) + (Clauses(scopes[1..]) + t)
    ensures ClauseItems(scopes) == [ClauseItem(scopes[0])] + ClauseItems(scopes[1..])
    ensures Clause(scopes[0]) != "" && Clause(scopes[0])[0] == '('
  {
    hide Clause;
    assert Clause(scopes[0]) != "" && Clause(scopes[0])[0] == '(' by {
      ClauseOpens(scopes[0]);
    }
  }

  lemma ClauseOpens(scope: string)
    ensures Clause(scope) != "" && Clause(scope)[0] == '('
  {
  }

  lemma {:induction false} ClausesParse(scopes: seq<string>, t: string)
    requires t != "" && t[0] != '('
    ensures ParseList(Clauses(scopes) + t) == Some(ParsedList(ClauseItems(scopes), t))
  {
    hide Parse, Clause;
    if scopes == [] {
      assert Clauses(scopes) + t == t && ClauseItems(scopes) == [];
    } else {
      ClausesStart(scopes, t);
      ClauseParses(scopes[0], Clauses(scopes[1..]) + t);
      ClausesParse(scopes[1..], t);
    }
  }

  /** The visibility filter parses back to exactly the list of visible scopes, each one escaped. */
  lemma VisibilityFilterParses(scopes: seq<string>)
    requires scopes != []
    ensures WellFormed(VisibilityFilter(scopes))
    ensures FilterOf(VisibilityFilter(scopes)) == Or(ClauseItems(scopes))
  {
    hide Clauses, ParseList, PlainPrefix, ValidItem;
    var s := VisibilityFilter(scopes);
    ClausesParse(scopes, ")");
    assert s == "(|" + (Clauses(scopes) + ")");
    assert s[0] == '(' && s[1] == '|' && s[2..] == Clauses(scopes) + ")";
    assert ")"[1..] == "";
  }

  /** The text of an item as `attribute = value`, when it is a plain equality. */
  function Equality(text: string): Option<(string, string)> {
    var i := EqualsSign(text);
    if !ValidItem(text) || text[i - 1] in "~<>:" || '*' in text[i + 1..] then None
    else Some((text[..i], Unescape(text[i + 1..]).value))
  }

  /** A service is its string attributes; `other` decides the items that are not equalities. */
  predicate Holds(f: SearchFilter, service: map<string, string>, other: string -> bool) {
    match f
    case And(args) => forall i :: 0 <= i < |args| ==> Holds(args[i], service, other)
    case Or(args) => exists i :: 0 <= i < |args| && Holds(args[i], service, other)
    case Not(arg) => !Holds(arg, service, other)
    case Item(text) =>
      match Equality(text)
      case None => other(text)
      case Some((attribute, value)) => attribute in service && service[attribute] == value
  }

  ghost predicate Admits(filter: string, service: map<string, string>, other: string -> bool) {
    WellFormed(filter) && Holds(FilterOf(filter), service, other)
  }

  lemma ClauseHolds(scope: string, service: map<string, string>, other: string -> bool)
    ensures Holds(ClauseItem(scope), service, other)
            <==> SCOPE_ATTRIBUTE in service && service[SCOPE_ATTRIBUTE] == scope
  {
    ClauseItemReads(scope);
    EscapeRoundTrip(scope);
    EscapeIsPlain(scope);
  }

  /** The visibility filter admits exactly the services that live in one of the visible scopes. */
  lemma VisibilityFilterAdmits(scopes: seq<string>, service: map<string, string>, other: string -> bool)
    requires scopes != []
    ensures Admits(VisibilityFilter(scopes), service, other)
            <==> SCOPE_ATTRIBUTE in service && service[SCOPE_ATTRIBUTE] in scopes
  {
    VisibilityFilterParses(scopes);
    var items := ClauseItems(scopes);
    forall i | 0 <= i < |scopes|
      ensures Holds(items[i], service, other)
              <==> SCOPE_ATTRIBUTE in service && service[SCOPE_ATTRIBUTE] == scopes[i]
    {
      ClauseHolds(scopes[i], service, other);
    }
  }

  /** Joining two filters admits exactly what both admit. */
  lemma ConjunctionAdmits(a: string, b: string, service: map<string, string>, other: string -> bool)
    requires WellFormed(a) && WellFormed(b)
    ensures Admits("(&" + a + b + ")", service, other) <==> Admits(a, service, other) && Admits(b, service, other)
  {
    ConjunctionParses(a, b);
    var f := And([FilterOf(a), FilterOf(b)]);
    assert f.args[0] == FilterOf(a) && f.args[1] == FilterOf(b);
  }

  lemma ParseOfNegation(u: string)
    ensures Parse("(!" + u)
            == match Parse(u)
               case None => None
               case Some(p) =>
                 if p.rest == "" || p.rest[0] != ')' then None else Some(Parsed(Not(p.filter), p.rest[1..]))
  {
    Split("(!", u);
    hide ParseList, PlainPrefix, ValidItem;
  }

  /** A filter in front of which `!` is put admits what it did not. */
  lemma NegationAdmits(a: string, service: map<string, string>, other: string -> bool)
    requires WellFormed(a)
    ensures WellFormed("(!" + a + ")")
    ensures Admits("(!" + a + ")", service, other) <==> !Admits(a, service, other)
  {
    assert "(!" + a + ")" == "(!" + (a + ")");
    ParseExtends(a, ")");
    Split(")", "");
    ParseOfNegation(a + ")");
    hide Parse;
  }

  /** There is no empty conjunction or disjunction. */
  lemma NoEmptyGroup(t: string)
    ensures Parse("(&)" + t) == None && Parse("(|)" + t) == None
  {
    assert ("(&)" + t)[2..] == ")" + t && ("(|)" + t)[2..] == ")" + t;
    assert ParseList(")" + t) == Some(ParsedList([], ")" + t));
  }

  /** An equality asks for the value itself, however it has to be escaped; other comparisons are left open. */
  lemma ItemAdmits(attribute: string, value: string, service: map<string, string>, other: string -> bool)
    requires attribute != "" && attribute[0] != '&' && attribute[0] != '|' && attribute[0] != '!'
    requires forall i :: 0 <= i < |attribute| ==> Plain(attribute[i]) && attribute[i] != '='
    ensures var filter := "(" + attribute + "=" + Escape(value) + ")";
            && WellFormed(filter)
            && (Admits(filter, service, other)
                <==> if attribute[|attribute| - 1] in ['~', '<', '>', ':'] then other(attribute + "=" + Escape(value))
                     else attribute in service && service[attribute] == value)
  {
    EqualsSignAt(attribute, Escape(value));
    EscapeRoundTrip(value);
    EscapeIsPlain(value);
    var text := attribute + "=" + Escape(value);
    assert text[..|attribute|] == attribute && text[|attribute| + 1..] == Escape(value);
    PlainIsItem(attribute, Escape(value));
    Regroup(attribute, Escape(value), "");
    ItemParses(text, "");
    hide Parse, Unescape, Escape, EqualsSign;
    assert "(" + text + ")" + "" == "(" + attribute + "=" + Escape(value) + ")";
  }
}
