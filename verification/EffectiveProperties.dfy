/** The properties injected into a component: user configuration plus scope metadata and filters. */
module EffectiveProperties {
  import opened Common
  import opened LdapFilter

  /** A property value; `Other` stands for values the manager never looks into. */
  datatype Value =
    | Text(text: string)
    | Number(number: int)
    | TextList(texts: seq<string>)
    | Dict(items: map<string, Value>)
    | Null
    | Other(token: int)

  type Props = map<string, Value>

  datatype PropertyError = InvalidFilters | NotAMapping

  const FILTERS_PROPERTY := "requires.filters"
  const PLUGIN_SCOPE_ID := SCOPE_ATTRIBUTE
  const PLUGIN_SCOPE_CHAIN := "plugin.scope_chain"
  const PLUGIN_KEY := "plugin.key"
  const PLUGIN_INSTANCE_ID := "plugin.instance_id"
  const PLUGIN_RANKING := "plugin.ranking"
  const SERVICE_RANKING := "service.ranking"

  const RUNTIME_KEYS: set<string> :=
    {PLUGIN_SCOPE_ID, PLUGIN_SCOPE_CHAIN, PLUGIN_KEY, PLUGIN_INSTANCE_ID, PLUGIN_RANKING, SERVICE_RANKING}

  /** Where and as what a component is created; `fields` are its scoped dependency fields. */
  datatype Placement = Placement(
    visible: seq<string>,
    serviceRanking: int,
    factory: string,
    instance: nat,
    ranking: int,
    fields: set<string>)

  predicate ValidFilter(v: Value) {
    v.Text? && !IsBlank(v.text) && WellFormed(v.text)
  }

  /** Filters must be absent, or a mapping from fields to well-formed filters. */
  predicate ValidFilters(props: Props) {
    FILTERS_PROPERTY in props && props[FILTERS_PROPERTY] != Null ==>
      && props[FILTERS_PROPERTY].Dict?
      && (forall k :: k in props[FILTERS_PROPERTY].items ==> ValidFilter(props[FILTERS_PROPERTY].items[k]))
  }

  function WithMetadata(user: Props, at: Placement): Props
    requires at.visible != []
  {
    user[PLUGIN_SCOPE_ID := Text(at.visible[0])]
        [PLUGIN_SCOPE_CHAIN := TextList(at.visible)]
        [PLUGIN_KEY := Text(at.factory)]
        [PLUGIN_INSTANCE_ID := Number(at.instance)]
        [PLUGIN_RANKING := Number(at.ranking)]
        [SERVICE_RANKING := Number(at.serviceRanking)]
  }

  function Conjoin(scopeFilter: string, user: string): string {
    "(&" + scopeFilter + user + ")"
  }

  /** A scoped field's filter: the scope filter, in front of the user's own one if there is one. */
  function Merge(filters: map<string, Value>, field: string, scopeFilter: string): Value {
    if field !in filters || !filters[field].Text? || filters[field].text == "" then Text(scopeFilter)
    else if scopeFilter <= filters[field].text then filters[field]
    else Text(Conjoin(scopeFilter, filters[field].text))
  }

  function MergeAll(filters: map<string, Value>, fields: set<string>, scopeFilter: string): map<string, Value> {
    map k | k in filters.Keys + fields :: if k in fields then Merge(filters, k, scopeFilter) else filters[k]
  }

  /** The user's filters as the merge starts from them. */
  function UserFilters(props: Props): map<string, Value> {
    if FILTERS_PROPERTY in props && props[FILTERS_PROPERTY].Dict? then props[FILTERS_PROPERTY].items else map[]
  }

  function Effective(user: Props, at: Placement): (r: Result<Props, PropertyError>)
    requires at.visible != []
  {
    var base := WithMetadata(user, at);
    if !ValidFilters(base) then Err(InvalidFilters)
    else if at.fields == {} then Ok(base)
    else if FILTERS_PROPERTY in base && base[FILTERS_PROPERTY] == Null then Err(NotAMapping)
    else Ok(base[FILTERS_PROPERTY := Dict(MergeAll(UserFilters(base), at.fields, VisibilityFilter(at.visible)))])
  }

  /** What a user may ask for: well-formed filters, or none; a null is no mapping to merge into. */
  predicate Acceptable(user: Props, fields: set<string>) {
    && ValidFilters(user)
    && (fields != {} && FILTERS_PROPERTY in user ==> user[FILTERS_PROPERTY] != Null)
  }

  /** Whether properties are accepted depends on the user's filters alone, not on the scope. */
  lemma EffectiveIff(user: Props, at: Placement)
    requires at.visible != []
    ensures Effective(user, at).Ok? <==> Acceptable(user, at.fields)
  {
    assert FILTERS_PROPERTY !in RUNTIME_KEYS;
    assert FILTERS_PROPERTY in WithMetadata(user, at) <==> FILTERS_PROPERTY in user;
  }

  /** Every filter named must be a text that is read as one filter, to its end. */
  lemma AcceptableIff(user: Props, fields: set<string>)
    ensures Acceptable(user, fields)
            <==> || "requires.filters" !in user
                 || (user["requires.filters"] == Null && fields == {})
                 || (&& user["requires.filters"].Dict?
                     && forall k :: k in user["requires.filters"].items ==>
                          exists s, filter :: user["requires.filters"].items[k] == Text(s)
                                              && Parse(s) == Some(Parsed(filter, "")))
  {
    hide Parse;
    if "requires.filters" in user && user["requires.filters"].Dict? {
      forall k | k in user["requires.filters"].items
        ensures ValidFilter(user["requires.filters"].items[k])
                <==> exists s, filter :: user["requires.filters"].items[k] == Text(s)
                                         && Parse(s) == Some(Parsed(filter, ""))
      {
        ValidFilterIff(user["requires.filters"].items[k]);
      }
    }
  }

  lemma ValidFilterIff(v: Value)
    ensures ValidFilter(v) <==> exists s, filter :: v == Text(s) && Parse(s) == Some(Parsed(filter, ""))
  {
    if v.Text? && WellFormed(v.text) {
      ValidText(v.text);
      assert Parse(v.text) == Some(Parsed(Parse(v.text).value.filter, ""));
    }
    hide Parse;
  }

  /** The loop over the scoped fields, in whatever order the set yields them. */
  method ApplyScopedFilters(props: Props, fields: set<string>, visible: seq<string>)
    returns (r: Result<Props, PropertyError>)
    requires ValidFilters(props)
    ensures r == if fields == {} then Ok(props)
                 else if FILTERS_PROPERTY in props && props[FILTERS_PROPERTY] == Null then Err(NotAMapping)
                 else Ok(props[FILTERS_PROPERTY
                               := Dict(MergeAll(UserFilters(props), fields, VisibilityFilter(visible)))])
  {
    if fields == {} {
      return Ok(props);
    }
    if FILTERS_PROPERTY in props && props[FILTERS_PROPERTY] == Null {
      return Err(NotAMapping);
    }
    var start := UserFilters(props);
    var filters := start;
    var scopeFilter := VisibilityFilter(visible);
    var todo := fields;
    assert MergeAll(start, fields - todo, scopeFilter) == start;
    while todo != {}
      invariant todo <= fields
      invariant filters == MergeAll(start, fields - todo, scopeFilter)
      decreases todo
    {
      var field :| field in todo;
      MergeOneMore(start, fields - todo, field, scopeFilter);
      assert fields - (todo - {field}) == (fields - todo) + {field};
      todo := todo - {field};
      if field in filters && filters[field].Text? && filters[field].text != "" && scopeFilter <= filters[field].text {
        continue;
      }
      filters := filters[field :=
                           if field !in filters || !filters[field].Text? || filters[field].text == ""
                           then Text(scopeFilter)
                           else Text(Conjoin(scopeFilter, filters[field].text))];
    }
    assert fields - {} == fields;
    r := Ok(props[FILTERS_PROPERTY := Dict(filters)]);
  }

  /** Merging one more field reads and changes only that field. */
  lemma MergeOneMore(start: map<string, Value>, done: set<string>, field: string, scopeFilter: string)
    requires field !in done
    ensures var filters := MergeAll(start, done, scopeFilter);
            && (field in filters <==> field in start)
            && (field in start ==> filters[field] == start[field])
            && MergeAll(start, done + {field}, scopeFilter) == filters[field := Merge(start, field, scopeFilter)]
            && (field in start && Merge(start, field, scopeFilter) == start[field] ==>
                  filters[field := Merge(start, field, scopeFilter)] == filters)
  {
  }

  /** `_effective_properties`: the second validation, after the merge, never rejects anything. */
  method ComputeEffective(user: Props, at: Placement) returns (r: Result<Props, PropertyError>)
    requires at.visible != []
    ensures r == Effective(user, at)
  {
    var base := user;
    base := base[PLUGIN_SCOPE_ID := Text(at.visible[0])];
    base := base[PLUGIN_SCOPE_CHAIN := TextList(at.visible)];
    base := base[PLUGIN_KEY := Text(at.factory)];
    base := base[PLUGIN_INSTANCE_ID := Number(at.instance)];
    base := base[PLUGIN_RANKING := Number(at.ranking)];
    base := base[SERVICE_RANKING := Number(at.serviceRanking)];
    if !ValidFilters(base) {
      return Err(InvalidFilters);
    }
    var merged := ApplyScopedFilters(base, at.fields, at.visible);
    if merged.Err? {
      return merged;
    }
    MergedFiltersAreValid(user, at);
    if !ValidFilters(merged.value) {
      return Err(InvalidFilters);
    }
    r := merged;
  }

  // ------------------------------------------------------------ what a component is told

  /** A key holds the same value in both, or is in neither. */
  predicate SameAt<K, V(==)>(a: map<K, V>, b: map<K, V>, key: K) {
    (key in a <==> key in b) && (key in a ==> a[key] == b[key])
  }

  /** The user's filters of these fields, and of no others, are as the user gave them. */
  predicate SameFilters(e: Props, user: Props, fields: set<string>) {
    && ("requires.filters" in e && e["requires.filters"].Dict? ==>
          forall k :: k in e["requires.filters"].items && k !in fields ==>
            && "requires.filters" in user && user["requires.filters"].Dict?
            && SameAt(e["requires.filters"].items, user["requires.filters"].items, k))
    && ("requires.filters" in user && user["requires.filters"].Dict? ==>
          && "requires.filters" in e && e["requires.filters"].Dict?
          && forall k :: k in user["requires.filters"].items && k !in fields ==>
               SameAt(e["requires.filters"].items, user["requires.filters"].items, k))
  }

  /** Six values about the component, and for the rest what the user gave, filters aside. */
  ghost predicate Told(e: Props, user: Props, at: Placement)
    requires at.visible != []
  {
    && "plugin.scope_id" in e && e["plugin.scope_id"] == Text(at.visible[0])
    && "plugin.scope_chain" in e && e["plugin.scope_chain"] == TextList(at.visible)
    && "plugin.key" in e && e["plugin.key"] == Text(at.factory)
    && "plugin.instance_id" in e && e["plugin.instance_id"] == Number(at.instance)
    && "plugin.ranking" in e && e["plugin.ranking"] == Number(at.ranking)
    && "service.ranking" in e && e["service.ranking"] == Number(at.serviceRanking)
    && (forall k :: (&& k != "plugin.scope_id" && k != "plugin.scope_chain" && k != "plugin.key"
                     && k != "plugin.instance_id" && k != "plugin.ranking" && k != "service.ranking"
                     && k != "requires.filters") ==> SameAt(e, user, k))
  }

  /**
   What is injected besides the user's properties: six values about the component, and filters on
   its scoped fields.  Everything else the user gave comes through untouched, and nothing is added.
   */
  ghost predicate Injects(e: Props, user: Props, at: Placement)
    requires at.visible != []
  {
    && Told(e, user, at)
    && (at.fields == {} ==> SameAt(e, user, "requires.filters"))
    && (at.fields != {} ==> "requires.filters" in e && e["requires.filters"].Dict?)
    && SameFilters(e, user, at.fields)
  }

  lemma EffectiveInjects(user: Props, at: Placement)
    requires at.visible != [] && Effective(user, at).Ok?
    ensures Injects(Effective(user, at).value, user, at)
  {
    var base, e := WithMetadata(user, at), Effective(user, at).value;
    MetadataTold(user, at);
    EffectiveFilters(user, at);
    MergedSame(user, at.fields, VisibilityFilter(at.visible));
    hide SameFilters, MergeAll, VisibilityFilter, Told, WithMetadata, ValidFilters;
    if at.fields == {} {
      SameFiltersOnly(e, user, user, at.fields);
    } else {
      var filters := MergeAll(UserFilters(user), at.fields, VisibilityFilter(at.visible));
      ToldStill(base, user, at, Dict(filters));
      SameFiltersOnly(e, user[FILTERS_PROPERTY := Dict(filters)], user, at.fields);
    }
  }

  lemma MetadataTold(user: Props, at: Placement)
    requires at.visible != []
    ensures Told(WithMetadata(user, at), user, at) && SameAt(WithMetadata(user, at), user, FILTERS_PROPERTY)
    ensures UserFilters(WithMetadata(user, at)) == UserFilters(user)
    ensures ValidFilters(WithMetadata(user, at)) <==> ValidFilters(user)
  {
    hide ValidFilter;
  }

  lemma ToldStill(e: Props, user: Props, at: Placement, filters: Value)
    requires at.visible != [] && Told(e, user, at)
    ensures Told(e[FILTERS_PROPERTY := filters], user, at)
  {
    assert FILTERS_PROPERTY !in RUNTIME_KEYS;
    var d := e[FILTERS_PROPERTY := filters];
    forall k | (&& k != "plugin.scope_id" && k != "plugin.scope_chain" && k != "plugin.key"
                && k != "plugin.instance_id" && k != "plugin.ranking" && k != "service.ranking"
                && k != "requires.filters")
      ensures SameAt(d, user, k)
    {
      assert SameAt(e, user, k);
    }
    forall k | k in RUNTIME_KEYS ensures k in e ==> d[k] == e[k] {
    }
  }

  lemma MergedSame(user: Props, fields: set<string>, scopeFilter: string)
    ensures SameFilters(user, user, fields)
    ensures ValidFilters(user) ==>
              SameFilters(user[FILTERS_PROPERTY := Dict(MergeAll(UserFilters(user), fields, scopeFilter))], user,
                          fields)
  {
  }

  /** Only the entry of the filters matters. */
  lemma SameFiltersOnly(e: Props, d: Props, user: Props, fields: set<string>)
    requires SameAt(e, d, FILTERS_PROPERTY)
    ensures SameFilters(e, user, fields) <==> SameFilters(d, user, fields)
  {
  }

  // ------------------------------------------------------------ what a scoped field may bind

  lemma ValidText(s: string)
    requires WellFormed(s)
    ensures s != "" && ValidFilter(Text(s))
  {
    assert !IsSpace(s[0]);
  }

  /** A scoped field gets the scope filter itself, or its conjunction with the user's filter. */
  lemma MergeCases(filters: map<string, Value>, field: string, visible: seq<string>)
    requires visible != [] && (field in filters ==> ValidFilter(filters[field]))
    ensures var scopeFilter := VisibilityFilter(visible);
            && ValidFilter(Merge(filters, field, scopeFilter))
            && Merge(filters, field, scopeFilter)
               == Text(if field in filters && filters[field] != Text(scopeFilter)
                       then Conjoin(scopeFilter, filters[field].text) else scopeFilter)
  {
    var scopeFilter := VisibilityFilter(visible);
    VisibilityFilterParses(visible);
    ValidText(scopeFilter);
    if field in filters {
      var user := filters[field].text;
      ValidText(user);
      if scopeFilter <= user {
        NoProperPrefix(user, scopeFilter);
      } else {
        ConjunctionParses(scopeFilter, user);
        ValidText(Conjoin(scopeFilter, user));
      }
    }
  }

  lemma MergedFiltersAreValid(user: Props, at: Placement)
    requires at.visible != [] && Effective(user, at).Ok?
    ensures ValidFilters(Effective(user, at).value)
  {
    var base := WithMetadata(user, at);
    var filters := UserFilters(base);
    forall k | k in filters.Keys + at.fields
      ensures ValidFilter(MergeAll(filters, at.fields, VisibilityFilter(at.visible))[k])
    {
      MergeCases(filters, k, at.visible);
    }
  }

  /**
   What a scoped field can be bound to: exactly the services of visible scopes that pass the user's
   own filter, if there is one.
   */
  lemma ScopedFieldAdmits(user: Props, at: Placement, field: string, service: map<string, string>,
                          other: string -> bool)
    requires at.visible != [] && Effective(user, at).Ok? && field in at.fields
    ensures var filters := UserFilters(user);
            var merged := UserFilters(Effective(user, at).value);
            && field in merged && merged[field].Text?
            && (field in filters ==> filters[field].Text?)
            && (Admits(merged[field].text, service, other)
                <==> && SCOPE_ATTRIBUTE in service && service[SCOPE_ATTRIBUTE] in at.visible
                     && (field in filters ==> Admits(filters[field].text, service, other)))
  {
    var base := WithMetadata(user, at);
    var filters := UserFilters(base);
    assert filters == UserFilters(user);
    MergeCases(filters, field, at.visible);
    VisibilityFilterAdmits(at.visible, service, other);
    VisibilityFilterParses(at.visible);
    if field in filters {
      ConjunctionAdmits(VisibilityFilter(at.visible), filters[field].text, service, other);
    }
  }

  /** The user's filters come through as they are exactly when every scoped field has the scope filter already. */
  lemma FiltersKeptIff(user: Props, at: Placement)
    requires at.visible != [] && Effective(user, at).Ok? && FILTERS_PROPERTY in user
    ensures SameAt(Effective(user, at).value, user, FILTERS_PROPERTY)
            <==> forall k :: k in at.fields ==>
                   k in UserFilters(user) && UserFilters(user)[k] == Text(VisibilityFilter(at.visible))
  {
    EffectiveFilters(user, at);
    if at.fields != {} {
      MergeNothingIff(UserFilters(user), at.fields, at.visible);
    }
  }

  lemma MergeNothingIff(filters: map<string, Value>, fields: set<string>, visible: seq<string>)
    requires visible != [] && forall k :: k in filters ==> ValidFilter(filters[k])
    ensures MergeAll(filters, fields, VisibilityFilter(visible)) == filters
            <==> forall k :: k in fields ==> k in filters && filters[k] == Text(VisibilityFilter(visible))
  {
    var merged := MergeAll(filters, fields, VisibilityFilter(visible));
    forall k | k in fields
      ensures k in merged
      ensures k in filters && merged[k] == filters[k] ==> filters[k] == Text(VisibilityFilter(visible))
      ensures k in filters && filters[k] == Text(VisibilityFilter(visible)) ==> merged[k] == filters[k]
    {
      MergeCases(filters, k, visible);
      if k in filters && filters[k] != Text(VisibilityFilter(visible)) {
        assert |Conjoin(VisibilityFilter(visible), filters[k].text)| > |filters[k].text|;
      }
    }
  }

  // ------------------------------------------------------------ rehydration

  /** The user's part of saved properties. */
  function Strip(saved: Props): Props {
    saved - RUNTIME_KEYS
  }

  /** What is stripped are the six values about the component, and nothing else. */
  lemma StripIs(saved: Props, k: string)
    ensures k in Strip(saved)
            <==> k in saved && k !in {"plugin.scope_id", "plugin.scope_chain", "plugin.key", "plugin.instance_id",
                                      "plugin.ranking", "service.ranking"}
    ensures k in Strip(saved) ==> Strip(saved)[k] == saved[k]
  {
  }

  /** The only filter the user gave any scoped field is the scope filter itself. */
  predicate NoOwnFilter(filters: map<string, Value>, fields: set<string>, visible: seq<string>) {
    forall k :: k in fields && k in filters ==> filters[k] == Text(VisibilityFilter(visible))
  }

  lemma StripKeepsUser(user: Props, at: Placement)
    requires at.visible != [] && Effective(user, at).Ok?
    ensures var e := Effective(user, at).value;
            && WithMetadata(Strip(e), at) == e
            && UserFilters(Strip(e)) == UserFilters(e) == UserFilters(WithMetadata(Strip(e), at))
  {
    assert FILTERS_PROPERTY !in RUNTIME_KEYS;
  }

  /** Effective properties taken for the user's give the same as their stripped part. */
  lemma StrippedIs(user: Props, at: Placement)
    requires at.visible != [] && Effective(user, at).Ok?
    ensures Effective(Strip(Effective(user, at).value), at) == Effective(Effective(user, at).value, at)
  {
    var e := Effective(user, at).value;
    StripKeepsUser(user, at);
    assert WithMetadata(e, at) == e;
  }

  lemma EffectiveFilters(user: Props, at: Placement)
    requires at.visible != [] && Effective(user, at).Ok?
    ensures forall k :: k in UserFilters(user) ==> ValidFilter(UserFilters(user)[k])
    ensures UserFilters(Effective(user, at).value)
            == if at.fields == {} then UserFilters(user)
               else MergeAll(UserFilters(user), at.fields, VisibilityFilter(at.visible))
    ensures at.fields != {} ==>
              FILTERS_PROPERTY in Effective(user, at).value && Effective(user, at).value[FILTERS_PROPERTY].Dict?
  {
    MetadataTold(user, at);
    hide WithMetadata, Told, WellFormed, IsBlank;
  }

  /** Recomputing from saved properties always works, and changes at most the filters. */
  lemma RehydrateSucceeds(user: Props, at: Placement)
    requires at.visible != [] && Effective(user, at).Ok?
    ensures var e := Effective(user, at).value;
            var again := Effective(Strip(e), at);
            && again.Ok?
            && (if at.fields == {} then again.value == e
                else again.value == e[FILTERS_PROPERTY
                       := Dict(MergeAll(UserFilters(e), at.fields, VisibilityFilter(at.visible)))])
  {
    StripKeepsUser(user, at);
    MergedFiltersAreValid(user, at);
  }

  /** A field with its own filter is wrapped once more; every other field keeps its filter. */
  lemma MergeTwice(filters: map<string, Value>, fields: set<string>, field: string, visible: seq<string>)
    requires visible != [] && (field in filters ==> ValidFilter(filters[field]))
    requires field in filters.Keys + fields
    ensures var scopeFilter := VisibilityFilter(visible);
            var once := MergeAll(filters, fields, scopeFilter);
            var twice := MergeAll(once, fields, scopeFilter);
            && field in once && once[field].Text?
            && field in twice
            && (if field in fields && field in filters && filters[field] != Text(scopeFilter)
                then twice[field] == Text(Conjoin(scopeFilter, once[field].text)) != once[field]
                else twice[field] == once[field])
  {
    var scopeFilter := VisibilityFilter(visible);
    var once := MergeAll(filters, fields, scopeFilter);
    if field in fields {
      MergeCases(filters, field, visible);
      MergeCases(once, field, visible);
      assert |Conjoin(scopeFilter, once[field].text)| > |once[field].text|;
    }
  }

  /**
   Rehydration gives back the very same properties exactly when no scoped field has a filter of its
   own.
   */
  lemma RehydrateStableIff(user: Props, at: Placement)
    requires at.visible != [] && Effective(user, at).Ok?
    ensures var e := Effective(user, at).value;
            Effective(Strip(e), at) == Ok(e)
            <==> NoOwnFilter(UserFilters(user), at.fields, at.visible)
  {
    hide Effective;
    var e := Effective(user, at).value;
    RehydrateSucceeds(user, at);
    EffectiveFilters(user, at);
    if at.fields != {} {
      MergeTwiceIff(UserFilters(user), at.fields, at.visible);
      FiltersReplaced(e, MergeAll(UserFilters(e), at.fields, VisibilityFilter(at.visible)));
    }
  }

  lemma MergeTwiceIff(filters: map<string, Value>, fields: set<string>, visible: seq<string>)
    requires visible != [] && forall k :: k in filters ==> ValidFilter(filters[k])
    ensures var scopeFilter := VisibilityFilter(visible);
            var once := MergeAll(filters, fields, scopeFilter);
            MergeAll(once, fields, scopeFilter) == once <==> NoOwnFilter(filters, fields, visible)
  {
    var once := MergeAll(filters, fields, VisibilityFilter(visible));
    forall k | k in once ensures k in filters.Keys + fields {
    }
    forall k | k in filters.Keys + fields {
      MergeTwice(filters, fields, k, visible);
    }
  }

  lemma FiltersReplaced(e: Props, filters: map<string, Value>)
    requires FILTERS_PROPERTY in e && e[FILTERS_PROPERTY].Dict?
    ensures e[FILTERS_PROPERTY := Dict(filters)] == e <==> filters == UserFilters(e)
  {
    if e[FILTERS_PROPERTY := Dict(filters)] == e {
      assert e[FILTERS_PROPERTY := Dict(filters)][FILTERS_PROPERTY] == e[FILTERS_PROPERTY];
    }
  }

  /** Even where rehydration wraps a filter once more, the field admits the same services. */
  lemma RehydratedFieldAdmits(user: Props, at: Placement, field: string, service: map<string, string>,
                              other: string -> bool)
    requires at.visible != [] && Effective(user, at).Ok? && field in at.fields
    ensures var e := Effective(user, at).value;
            var again := Effective(Strip(e), at);
            && again.Ok? && field in UserFilters(e) && field in UserFilters(again.value)
            && UserFilters(e)[field].Text? && UserFilters(again.value)[field].Text?
            && (Admits(UserFilters(again.value)[field].text, service, other)
                <==> Admits(UserFilters(e)[field].text, service, other))
  {
    var e := Effective(user, at).value;
    RehydrateSucceeds(user, at);
    StripKeepsUser(user, at);
    ScopedFieldAdmits(user, at, field, service, other);
    ScopedFieldAdmits(Strip(e), at, field, service, other);
  }
}
