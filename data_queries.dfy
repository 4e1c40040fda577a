/**
 * The query URLs the client-side data service builds: the fronius-symo and
 * monitor queries list the query object's own keys after the path, and the
 * heat-pump query spells out its three flags and the admitted register ids.
 * Each builder is shown to produce a URL from which its parameters can be
 * read back.
 */
module DataQueries {
  import opened Wrappers

  const MaxHeatpumpId: int := 0xffff

  // ---------------------------------------------------------------- the generic builder

  /**
   * What `for (const att in query) { uri += first ? '?' + att : '&' + att; first = false; }`
   * appends for the keys `keys`, in enumeration order.
   */
  function QueryString(keys: seq<string>, first: bool): (s: string)
    decreases |keys|
  {
    if keys == [] then "" else (if first then "?" else "&") + keys[0] + QueryString(keys[1..], false)
  }

  /** The total length of the keys. */
  function KeysLength(keys: seq<string>): nat
    decreases |keys|
  {
    if keys == [] then 0 else |keys[0]| + KeysLength(keys[1..])
  }

  /**
   * The query string adds exactly one separator per key and nothing else; it
   * opens with `?` when it is the first part of the query and `&` otherwise.
   */
  lemma {:induction false} QueryStringShape(keys: seq<string>, first: bool)
    ensures |QueryString(keys, first)| == |keys| + KeysLength(keys)
    ensures keys == [] <==> QueryString(keys, first) == []
    ensures keys != [] ==> QueryString(keys, first)[0] == (if first then '?' else '&')
    decreases |keys|
  {
    if keys != [] {
      QueryStringShape(keys[1..], false);
    }
  }

  /** The base path followed by the query's keys; with no keys, the bare path. */
  function QueryUri(path: string, keys: seq<string>): (uri: string)
    ensures |uri| >= |path| && uri[..|path|] == path
    ensures keys == [] <==> uri == path
    ensures keys != [] ==> uri[|path|] == '?'
  {
    path + QueryString(keys, true)
  }

  /** Splits at every `&`. */
  function Split(s: string): (parts: seq<string>)
    ensures |parts| >= 1
    decreases |s|
  {
    if s == [] then [[]]
    else
      var tail := Split(s[1..]);
      if s[0] == '&' then [[]] + tail else [[s[0]] + tail[0]] + tail[1..]
  }

  /** Reads the keys back from a query string: nothing, or `?` and `&`-separated keys. */
  function ParseQuery(q: string): seq<string> {
    if |q| > 0 && q[0] == '?' then Split(q[1..]) else []
  }

  predicate NoAmpersand(keys: seq<string>) {
    forall i :: 0 <= i < |keys| ==> '&' !in keys[i]
  }

  lemma {:induction false} SplitSingle(k: string)
    requires '&' !in k
    ensures Split(k) == [k]
    decreases |k|
  {
    if k != [] {
      assert '&' !in k[1..] by {
        forall c | c in k[1..] ensures c in k {
        }
      }
      SplitSingle(k[1..]);
      assert k[0] != '&';
      assert [k[0]] + k[1..] == k;
    }
  }

  lemma {:induction false} SplitAtSeparator(k: string, t: string)
    requires '&' !in k
    ensures Split(k + "&" + t) == [k] + Split(t)
    decreases |k|
  {
    if k == [] {
      assert k + "&" + t == "&" + t;
      assert ("&" + t)[1..] == t;
    } else {
      assert (k + "&" + t)[1..] == k[1..] + "&" + t;
      SplitAtSeparator(k[1..], t);
      assert [k[0]] + k[1..] == k;
    }
  }

  lemma {:induction false} SplitRest(k: string, keys: seq<string>)
    requires '&' !in k && NoAmpersand(keys)
    ensures Split(k + QueryString(keys, false)) == [k] + keys
    decreases |keys|
  {
    if keys == [] {
      assert k + QueryString(keys, false) == k;
      SplitSingle(k);
    } else {
      var rest := keys[0] + QueryString(keys[1..], false);
      assert k + QueryString(keys, false) == k + "&" + rest;
      SplitAtSeparator(k, rest);
      SplitRest(keys[0], keys[1..]);
      assert [k] + ([keys[0]] + keys[1..]) == [k] + keys;
    }
  }

  /** The keys are recovered from the URL in their original order, provided no key contains `&`. */
  lemma QueryRoundTrip(path: string, keys: seq<string>)
    requires NoAmpersand(keys)
    ensures ParseQuery(QueryUri(path, keys)[|path|..]) == keys
  {
    var uri := QueryUri(path, keys);
    assert uri[|path|..] == QueryString(keys, true);
    if keys != [] {
      var q := QueryString(keys, true);
      assert q[1..] == keys[0] + QueryString(keys[1..], false);
      SplitRest(keys[0], keys[1..]);
    }
  }

  // ---------------------------------------------------------------- fronius-symo and monitor queries

  /** The flags of `getFroniusSymoValues`. */
  datatype SymoFlag = All | Froniusregister | Common | Inverter | Nameplate | Setting | Status | Control
                    | Storage | InverterExtension | StringCombiner | Meter

  function FlagName(f: SymoFlag): string {
    match f
    case All => "all"
    case Froniusregister => "froniusregister"
    case Common => "common"
    case Inverter => "inverter"
    case Nameplate => "nameplate"
    case Setting => "setting"
    case Status => "status"
    case Control => "control"
    case Storage => "storage"
    case InverterExtension => "inverterExtension"
    case StringCombiner => "stringCombiner"
    case Meter => "meter"
  }

  function FlagNames(flags: seq<SymoFlag>): (names: seq<string>)
    ensures |names| == |flags|
    ensures forall i :: 0 <= i < |flags| ==> names[i] == FlagName(flags[i])
    ensures NoAmpersand(names)
  {
    if flags == [] then [] else [FlagName(flags[0])] + FlagNames(flags[1..])
  }

  /**
   * `getFroniusSymoValues`: `flags` are the query object's own keys in their
   * order. A key is listed whatever its value, so `{ inverter: false }` still
   * asks for `?inverter`.
   */
  function FroniusSymoUri(serverUri: string, flags: seq<SymoFlag>): (uri: string)
    ensures var path := serverUri + "/data/froniussymo";
            |uri| >= |path| && uri[..|path|] == path && ParseQuery(uri[|path|..]) == FlagNames(flags)
  {
    var path := serverUri + "/data/froniussymo";
    QueryRoundTrip(path, FlagNames(flags));
    QueryUri(path, FlagNames(flags))
  }

  /**
   * `getMonitorData`: the only key of its query is `latest`; it is listed
   * whenever the key is present, whatever its value.
   */
  function MonitorDataUri(serverUri: string, latest: Option<bool>): (uri: string)
    ensures latest.None? ==> uri == serverUri + "/data/monitor"
    ensures latest.Some? ==> uri == serverUri + "/data/monitor?latest"
  {
    var keys: seq<string> := if latest.Some? then ["latest"] else [];
    assert latest.Some? ==> QueryString(keys, true) == "?latest" by {
      if latest.Some? {
        assert keys[1..] == [];
      }
    }
    QueryUri(serverUri + "/data/monitor", keys)
  }

  // ---------------------------------------------------------------- the heat-pump query

  /** The query of `getNibe1155Values`; a missing query and missing flags are false. */
  datatype NibeQuery = NibeQuery(controller: bool, completeValues: bool, ids: Option<seq<int>>)

  function Digit(d: int): char
    requires 0 <= d < 10
  {
    "0123456789"[d]
  }

  /** A non-negative number in decimal, as `'' + id` renders it. */
  function Decimal(n: nat): (s: string)
    ensures |s| >= 1 && forall i :: 0 <= i < |s| ==> '0' <= s[i] <= '9'
    decreases n
  {
    if n < 10 then [Digit(n)] else Decimal(n / 10) + [Digit(n % 10)]
  }

  /** The value of a string of decimal digits. */
  function DigitsValue(s: string): nat
    requires forall i :: 0 <= i < |s| ==> '0' <= s[i] <= '9'
    decreases |s|
  {
    if s == [] then 0 else DigitsValue(s[..|s| - 1]) * 10 + ((s[|s| - 1] as int) - ('0' as int))
  }

  lemma {:induction false} DecimalRoundTrip(n: nat)
    ensures DigitsValue(Decimal(n)) == n
    decreases n
  {
    if n >= 10 {
      DecimalRoundTrip(n / 10);
      var s := Decimal(n);
      assert s[..|s| - 1] == Decimal(n / 10);
    }
  }

  /** The ids the loop keeps: those in `0..0xffff`, in input order. */
  function InRange(ids: seq<int>): (r: seq<int>)
    ensures forall i :: 0 <= i < |r| ==> 0 <= r[i] <= MaxHeatpumpId
    ensures forall x :: x in r <==> x in ids && 0 <= x <= MaxHeatpumpId
    decreases |ids|
  {
    if ids == [] then []
    else (if 0 <= ids[0] <= MaxHeatpumpId then [ids[0]] else []) + InRange(ids[1..])
  }

  /** Filtering keeps the input order: it distributes over concatenation. */
  lemma {:induction false} InRangeAppend(a: seq<int>, b: seq<int>)
    ensures InRange(a + b) == InRange(a) + InRange(b)
    decreases |a|
  {
    if a == [] {
      assert a + b == b;
    } else {
      assert (a + b)[0] == a[0];
      assert (a + b)[1..] == a[1..] + b;
      InRangeAppend(a[1..], b);
      var h := if 0 <= a[0] <= MaxHeatpumpId then [a[0]] else [];
      assert InRange(a + b) == h + InRange(a[1..] + b);
      assert InRange(a) == h + InRange(a[1..]);
    }
  }

  /** The loop `for (const id of query.ids) if (id >= 0 && id <= 0xffff) uri += '&id=' + id`. */
  function IdSuffix(ids: seq<int>): (s: string)
    ensures s == [] <==> InRange(ids) == []
    ensures s != [] ==> s[0] == '&'
    decreases |ids|
  {
    if ids == [] then ""
    else (if 0 <= ids[0] <= MaxHeatpumpId then "&id=" + Decimal(ids[0]) else "") + IdSuffix(ids[1..])
  }

  function BoolText(b: bool): string {
    if b then "true" else "false"
  }

  /** `getNibe1155Values`, as its statements build the URL. */
  function NibeUri(serverUri: string, query: Option<NibeQuery>): (uri: string)
    ensures query.None? ==> uri == serverUri + "/data/nibe1155" + "?completeValues=false&simpleValues=true" + "&controller=false"
  {
    var q := query.GetOr(NibeQuery(false, false, None));
    serverUri + "/data/nibe1155"
    + "?" + (if q.completeValues then "completeValues=true&simpleValues=false" else "completeValues=false&simpleValues=true")
    + "&controller=" + (if q.controller then "true" else "false")
    + (if q.ids.Some? then IdSuffix(q.ids.value) else "")
  }

  function IdParams(ids: seq<int>): (ps: seq<string>)
    requires forall i :: 0 <= i < |ids| ==> 0 <= ids[i]
    ensures |ps| == |ids|
    ensures forall i :: 0 <= i < |ids| ==> ps[i] == "id=" + Decimal(ids[i])
    decreases |ids|
  {
    if ids == [] then [] else ["id=" + Decimal(ids[0])] + IdParams(ids[1..])
  }

  /** The parameters the heat-pump query asks for. */
  function NibeParams(query: Option<NibeQuery>): (ps: seq<string>)
    ensures |ps| >= 3
    ensures ps[0] == "completeValues=true" <==> ps[1] == "simpleValues=false"
    ensures ps[0] == "completeValues=false" <==> ps[1] == "simpleValues=true"
    ensures ps[0] == "completeValues=true" || ps[0] == "completeValues=false"
    ensures ps[2] == "controller=true" || ps[2] == "controller=false"
    ensures ps[0] == "completeValues=true" <==> query.Some? && query.value.completeValues
    ensures ps[2] == "controller=true" <==> query.Some? && query.value.controller
    ensures var ids := if query.Some? && query.value.ids.Some? then InRange(query.value.ids.value) else [];
            ps[3..] == IdParams(ids)
  {
    var q := query.GetOr(NibeQuery(false, false, None));
    var ids := if q.ids.Some? then InRange(q.ids.value) else [];
    ["completeValues=" + BoolText(q.completeValues), "simpleValues=" + BoolText(!q.completeValues),
     "controller=" + BoolText(q.controller)] + IdParams(ids)
  }

  lemma {:induction false} IdSuffixIsQuery(ids: seq<int>)
    ensures IdSuffix(ids) == QueryString(IdParams(InRange(ids)), false)
    decreases |ids|
  {
    if ids != [] {
      IdSuffixIsQuery(ids[1..]);
      var rest := InRange(ids[1..]);
      if 0 <= ids[0] <= MaxHeatpumpId {
        assert InRange(ids) == [ids[0]] + rest;
        var ps := IdParams([ids[0]] + rest);
        assert ([ids[0]] + rest)[0] == ids[0];
        assert ([ids[0]] + rest)[1..] == rest;
        assert ps == ["id=" + Decimal(ids[0])] + IdParams(rest);
        assert ps[0] == "id=" + Decimal(ids[0]);
        assert ps[1..] == IdParams(rest);
        assert QueryString(ps, false) == "&" + ps[0] + QueryString(ps[1..], false);
      } else {
        assert InRange(ids) == rest;
      }
    }
  }

  lemma QueryStringThree(a: string, b: string, c: string, tail: seq<string>)
    ensures QueryString([a, b, c] + tail, true) == "?" + a + "&" + b + "&" + c + QueryString(tail, false)
  {
    var ks := [a, b, c] + tail;
    var ks1 := [b, c] + tail;
    var ks2 := [c] + tail;
    assert ks[0] == a && ks[1..] == ks1;
    assert ks1[0] == b && ks1[1..] == ks2;
    assert ks2[0] == c && ks2[1..] == tail;
    assert QueryString(ks2, false) == "&" + c + QueryString(tail, false);
    assert QueryString(ks1, false) == "&" + b + QueryString(ks2, false);
    assert QueryString(ks, true) == "?" + a + QueryString(ks1, false);
  }

  lemma FlagsText(completeValues: bool)
    ensures (if completeValues then "completeValues=true&simpleValues=false" else "completeValues=false&simpleValues=true")
            == ("completeValues=" + BoolText(completeValues)) + "&" + ("simpleValues=" + BoolText(!completeValues))
  {
  }

  lemma ControllerText(controller: bool)
    ensures "&controller=" + (if controller then "true" else "false") == "&" + ("controller=" + BoolText(controller))
  {
  }

  /** The statements of `getNibe1155Values` build the generic query URL of `NibeParams`. */
  lemma NibeUriIsQuery(serverUri: string, query: Option<NibeQuery>)
    ensures NibeUri(serverUri, query) == QueryUri(serverUri + "/data/nibe1155", NibeParams(query))
  {
    var q := query.GetOr(NibeQuery(false, false, None));
    var ids := if q.ids.Some? then q.ids.value else [];
    IdSuffixIsQuery(ids);
    assert InRange([]) == [];
    var a := "completeValues=" + BoolText(q.completeValues);
    var b := "simpleValues=" + BoolText(!q.completeValues);
    var c := "controller=" + BoolText(q.controller);
    var tail := IdParams(InRange(ids));
    assert NibeParams(query) == [a, b, c] + tail;
    QueryStringThree(a, b, c, tail);
    FlagsText(q.completeValues);
    ControllerText(q.controller);
    var head := if q.completeValues then "completeValues=true&simpleValues=false" else "completeValues=false&simpleValues=true";
    var ctl := if q.controller then "true" else "false";
    var suffix := if q.ids.Some? then IdSuffix(q.ids.value) else "";
    AppendShape(serverUri + "/data/nibe1155", head, ctl, suffix, a, b, c);
  }

  lemma AppendShape(path: string, head: string, ctl: string, suffix: string, a: string, b: string, c: string)
    requires head == a + "&" + b
    requires "&controller=" + ctl == "&" + c
    ensures path + "?" + head + "&controller=" + ctl + suffix == path + ("?" + a + "&" + b + "&" + c + suffix)
  {
    var lit := "&controller=";
    calc {
      path + "?" + head + lit + ctl + suffix;
      path + "?" + head + (lit + ctl) + suffix;
      path + "?" + (a + "&" + b) + ("&" + c) + suffix;
      path + ("?" + a + "&" + b + "&" + c + suffix);
    }
  }

  lemma DecimalNoAmpersand(n: nat)
    ensures '&' !in "id=" + Decimal(n)
  {
    var s := "id=" + Decimal(n);
    forall i | 0 <= i < |s|
      ensures s[i] != '&'
    {
      if i >= 3 {
        assert s[i] == Decimal(n)[i - 3];
      }
    }
  }

  lemma IdParamsNoAmpersand(ids: seq<int>)
    requires forall i :: 0 <= i < |ids| ==> 0 <= ids[i]
    ensures NoAmpersand(IdParams(ids))
  {
    var ps := IdParams(ids);
    forall i | 0 <= i < |ps|
      ensures '&' !in ps[i]
    {
      DecimalNoAmpersand(ids[i]);
    }
  }

  lemma FlagParamsNoAmpersand(completeValues: bool, controller: bool)
    ensures '&' !in "completeValues=" + BoolText(completeValues)
    ensures '&' !in "simpleValues=" + BoolText(!completeValues)
    ensures '&' !in "controller=" + BoolText(controller)
  {
  }

  lemma NoAmpersandInParams(query: Option<NibeQuery>)
    ensures NoAmpersand(NibeParams(query))
  {
    var q := query.GetOr(NibeQuery(false, false, None));
    var ids := if q.ids.Some? then InRange(q.ids.value) else [];
    var a := "completeValues=" + BoolText(q.completeValues);
    var b := "simpleValues=" + BoolText(!q.completeValues);
    var c := "controller=" + BoolText(q.controller);
    var tail := IdParams(ids);
    var ps := NibeParams(query);
    assert ps == [a, b, c] + tail;
    FlagParamsNoAmpersand(q.completeValues, q.controller);
    IdParamsNoAmpersand(ids);
    forall i | 0 <= i < |ps|
      ensures '&' !in ps[i]
    {
      if i >= 3 {
        assert ps[i] == tail[i - 3];
      }
    }
  }

  /**
   * The heat-pump URL reads back as its parameters: the complementary pair
   * `completeValues` / `simpleValues`, `controller=true|false`, and one `id=`
   * per admitted id, in input order.
   */
  lemma NibeRoundTrip(serverUri: string, query: Option<NibeQuery>)
    ensures var path := serverUri + "/data/nibe1155";
            ParseQuery(NibeUri(serverUri, query)[|path|..]) == NibeParams(query)
  {
    NibeUriIsQuery(serverUri, query);
    NoAmpersandInParams(query);
    QueryRoundTrip(serverUri + "/data/nibe1155", NibeParams(query));
  }

  /** The heat-pump URL is the `/data/nibe1155` path of the server followed by a query. */
  lemma NibeUriPath(serverUri: string, query: Option<NibeQuery>)
    ensures var path := serverUri + "/data/nibe1155";
            var uri := NibeUri(serverUri, query);
            |uri| > |path| && uri[..|path|] == path && uri[|path|] == '?'
  {
    NibeUriIsQuery(serverUri, query);
  }

  /** The number carried by a parameter `id=<digits>`, if the parameter has that form. */
  function IdOfParam(p: string): Option<nat> {
    if |p| <= 3 || p[..3] != "id=" then None
    else
      var digits := p[3..];
      if forall i :: 0 <= i < |digits| ==> '0' <= digits[i] <= '9' then Some(DigitsValue(digits)) else None
  }

  /** The numbers of the `id=` parameters among `ps`, in order. */
  function ParsedIds(ps: seq<string>): seq<int>
    decreases |ps|
  {
    if ps == [] then []
    else (match IdOfParam(ps[0]) case Some(n) => [n] case None => []) + ParsedIds(ps[1..])
  }

  /** Each `id=` parameter reads back as the id it was rendered from. */
  lemma {:induction false} IdParamsReadBack(ids: seq<int>)
    requires forall i :: 0 <= i < |ids| ==> 0 <= ids[i]
    ensures ParsedIds(IdParams(ids)) == ids
    decreases |ids|
  {
    if ids != [] {
      var ps := IdParams(ids);
      var d := Decimal(ids[0]);
      assert ps[0] == "id=" + d;
      assert ps[0][..3] == "id=" && ps[0][3..] == d;
      DecimalRoundTrip(ids[0]);
      assert IdOfParam(ps[0]) == Some(ids[0]);
      IdParamsReadBack(ids[1..]);
      assert ps[1..] == IdParams(ids[1..]);
    }
  }

  /** The server reads the heat-pump ids back from the URL: exactly the in-range ids, in their order. */
  lemma NibeIdsReadBack(serverUri: string, query: Option<NibeQuery>)
    ensures var path := serverUri + "/data/nibe1155";
            var ps := ParseQuery(NibeUri(serverUri, query)[|path|..]);
            |ps| >= 3 &&
            ParsedIds(ps[3..]) == if query.Some? && query.value.ids.Some? then InRange(query.value.ids.value) else []
  {
    NibeRoundTrip(serverUri, query);
    var ids := if query.Some? && query.value.ids.Some? then InRange(query.value.ids.value) else [];
    IdParamsReadBack(ids);
  }

  /** The request `refreshMonitorValues` sends while it has no heat-pump snapshot yet. */
  lemma InitialNibeRequest()
    ensures NibeParams(Some(NibeQuery(true, true, None)))
            == ["completeValues=true", "simpleValues=false", "controller=true"]
  {
    assert InRange([]) == [] && IdParams([]) == [];
  }
}
