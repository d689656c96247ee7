/**
 * Set-up of the donation widget script: the slug guard, the default embed
 * id, and the filtering of the page's query string into the tracking map
 * and the query of the fallback URL.
 *
 * A query string is a sequence of (name, value) pairs in document order, as
 * `URLSearchParams` holds it. The fallback URL's query is held the same way;
 * `SetParam` is the `set` operation of the WHATWG URL Standard
 * (section 6.2, "URLSearchParams class").
 */
module DonationConfig {
  import opened Common

  type Param = (string, string)

  const FALLBACK_BASE: string := "https://givebutter.com/"

  /** The URL opened when the widget cannot be used: a base and its query pairs. */
  datatype Url = Url(base: string, query: seq<Param>)

  /** Everything the script works out before it loads the widget. */
  datatype DonationSetup = DonationSetup(
    slug: string,
    defaultEmbedId: Option<string>,
    utmParams: map<string, string>,
    fallbackUrl: Url)

  /** `attr?.trim()`: an absent attribute stays absent. */
  function TrimAttr(attr: Option<string>): (r: Option<string>)
    ensures r.None? <==> attr.None?
    ensures r.Some? ==> r.value == Trim(attr.value)
    ensures r.Some? ==> r.value == [] || (!IsJsWhitespace(r.value[0]) && !IsJsWhitespace(r.value[|r.value| - 1]))
  {
    match attr
    case None => None
    case Some(s) => Some(Trim(s))
  }

  /**
   * The campaign slug, or `None` when the script must do nothing: the body
   * attribute is absent or holds only white space.
   */
  function ResolveSlug(attr: Option<string>): (r: Option<string>)
    ensures r.None? <==> attr.None? || forall i | 0 <= i < |attr.value| :: IsJsWhitespace(attr.value[i])
    ensures r.Some? ==> r.value != [] && r.value == Trim(attr.value)
  {
    if attr.None? then None
    else
      TrimEmptyIffBlank(attr.value);
      if Trim(attr.value) == [] then None else Some(Trim(attr.value))
  }

  /** ASCII lower-casing, which is all `toLowerCase` does to a `utm_` prefix. */
  function ToLowerAscii(s: string): (r: string)
    ensures |r| == |s|
  {
    seq(|s|, i requires 0 <= i < |s| => if 'A' <= s[i] <= 'Z' then (s[i] as int + 32) as char else s[i])
  }

  /** `key.toLowerCase().startsWith('utm_')`. */
  predicate StartsWithUtm(key: string)
    ensures StartsWithUtm(key) ==> |key| >= 4 && key[3] == '_'
  {
    |key| >= 4 && var low := ToLowerAscii(key); low[0] == 'u' && low[1] == 't' && low[2] == 'm' && low[3] == '_'
  }

  /** The prefix test, character by character: case is ignored in `utm` but not in `_`. */
  lemma StartsWithUtmCases(key: string)
    ensures StartsWithUtm(key) <==>
      |key| >= 4 && key[0] in "uU" && key[1] in "tT" && key[2] in "mM" && key[3] == '_'
  {
    if |key| >= 4 {
      var low := ToLowerAscii(key);
      if StartsWithUtm(key) {
        assert low[0] == 'u' && low[1] == 't' && low[2] == 'm' && low[3] == '_';
      }
    }
  }

  /** How many pairs of `q` carry the name `k`. */
  function CountName(q: seq<Param>, k: string): nat
  {
    if q == [] then 0 else (if q[0].0 == k then 1 else 0) + CountName(q[1..], k)
  }

  /** `URLSearchParams.get`: the value of the first pair named `k`. */
  function Lookup(q: seq<Param>, k: string): (r: Option<string>)
    ensures r.None? <==> CountName(q, k) == 0
  {
    if q == [] then None else if q[0].0 == k then Some(q[0].1) else Lookup(q[1..], k)
  }

  /** `q` without its pairs named `k`; no other name is affected. */
  function RemoveName(q: seq<Param>, k: string): (r: seq<Param>)
    ensures CountName(r, k) == 0
    ensures forall j :: j != k ==> CountName(r, j) == CountName(q, j) && Lookup(r, j) == Lookup(q, j)
  {
    if q == [] then []
    else if q[0].0 == k then RemoveName(q[1..], k)
    else
      var rest := RemoveName(q[1..], k);
      assert ([q[0]] + rest)[1..] == rest;
      [q[0]] + rest
  }

  /**
   * The first pair named `k` gets the value `v` and the later pairs named
   * `k` are removed; pairs with other names keep their order and values.
   */
  function ReplaceFirst(q: seq<Param>, k: string, v: string): (r: seq<Param>)
    requires CountName(q, k) > 0
    ensures CountName(r, k) == 1 && Lookup(r, k) == Some(v)
    ensures forall j :: j != k ==> CountName(r, j) == CountName(q, j) && Lookup(r, j) == Lookup(q, j)
  {
    if q[0].0 == k then [(k, v)] + RemoveName(q[1..], k)
    else
      var rest := ReplaceFirst(q[1..], k, v);
      assert ([q[0]] + rest)[1..] == rest;
      [q[0]] + rest
  }

  /**
   * `URLSearchParams.set(k, v)`: afterwards exactly one pair is named `k`
   * and it holds `v`; every other name is untouched.
   */
  function SetParam(q: seq<Param>, k: string, v: string): (r: seq<Param>)
    ensures CountName(r, k) == 1 && Lookup(r, k) == Some(v)
    ensures forall j :: j != k ==> CountName(r, j) == CountName(q, j) && Lookup(r, j) == Lookup(q, j)
  {
    if CountName(q, k) > 0 then ReplaceFirst(q, k, v)
    else
      CountAppend(q, (k, v));
      q + [(k, v)]
  }

  lemma {:induction false} CountAppend(q: seq<Param>, p: Param)
    requires CountName(q, p.0) == 0
    ensures CountName(q + [p], p.0) == 1 && Lookup(q + [p], p.0) == Some(p.1)
    ensures forall j :: j != p.0 ==> CountName(q + [p], j) == CountName(q, j) && Lookup(q + [p], j) == Lookup(q, j)
  {
    if q != [] {
      assert (q + [p])[1..] == q[1..] + [p];
      CountAppend(q[1..], p);
    }
  }

  /** The tracking map: every pair whose name passes the prefix test, in order, a later value overwriting an earlier one. */
  function UtmMap(search: seq<Param>): (m: map<string, string>)
    ensures forall k | k in m :: StartsWithUtm(k)
  {
    if search == [] then map[]
    else
      var m := UtmMap(search[..|search| - 1]);
      var (k, v) := search[|search| - 1];
      if StartsWithUtm(k) then m[k := v] else m
  }

  /** The query of the fallback URL: `set` applied for every pair that passes the prefix test, in order. */
  function UtmQuery(search: seq<Param>): (q: seq<Param>)
    ensures forall k :: CountName(q, k) <= 1
    ensures forall k :: !StartsWithUtm(k) ==> CountName(q, k) == 0
  {
    if search == [] then []
    else
      var q := UtmQuery(search[..|search| - 1]);
      var (k, v) := search[|search| - 1];
      if StartsWithUtm(k) then SetParam(q, k, v) else q
  }

  /**
   * The `forEach` over the page's query string that fills the tracking map
   * and the fallback URL's query side by side.
   */
  method FilterUtm(search: seq<Param>) returns (utmParams: map<string, string>, query: seq<Param>)
    ensures utmParams == UtmMap(search)
    ensures query == UtmQuery(search)
  {
    utmParams := map[];
    query := [];
    for i := 0 to |search|
      invariant utmParams == UtmMap(search[..i])
      invariant query == UtmQuery(search[..i])
    {
      assert search[..i + 1][..i] == search[..i];
      var (key, value) := search[i];
      if StartsWithUtm(key) {
        utmParams := utmParams[key := value];
        query := SetParam(query, key, value);
      }
    }
    assert search[..|search|] == search;
  }

  /** A name is in the tracking map exactly when it passes the prefix test and occurs in the query string. */
  lemma {:induction false} UtmMapKeys(search: seq<Param>, k: string)
    ensures k in UtmMap(search) <==> StartsWithUtm(k) && exists i | 0 <= i < |search| :: search[i].0 == k
  {
    if search != [] {
      var init := search[..|search| - 1];
      UtmMapKeys(init, k);
      if exists i | 0 <= i < |init| :: init[i].0 == k {
        var i :| 0 <= i < |init| && init[i].0 == k;
        assert search[i].0 == k;
      }
      if exists i | 0 <= i < |search| :: search[i].0 == k {
        var i :| 0 <= i < |search| && search[i].0 == k;
        if i < |init| {
          assert init[i].0 == k;
        }
      }
    }
  }

  /** The map keeps the value of the last pair with that name, spelled as it was. */
  lemma {:induction false} UtmMapLastWins(search: seq<Param>, k: string)
    requires k in UtmMap(search)
    ensures exists i | 0 <= i < |search| ::
      search[i] == (k, UtmMap(search)[k]) && forall j | i < j < |search| :: search[j].0 != k
  {
    var init := search[..|search| - 1];
    var last := |search| - 1;
    UtmMapKeys(search, k);
    if search[last].0 == k && StartsWithUtm(k) {
      assert search[last] == (k, UtmMap(search)[k]);
    } else {
      assert UtmMap(search) == UtmMap(init) || UtmMap(search) == UtmMap(init)[search[last].0 := search[last].1];
      assert k in UtmMap(init) && UtmMap(init)[k] == UtmMap(search)[k];
      UtmMapLastWins(init, k);
      var i :| 0 <= i < |init| && init[i] == (k, UtmMap(init)[k]) && forall j | i < j < |init| :: init[j].0 != k;
      assert search[i] == (k, UtmMap(search)[k]);
      assert forall j | i < j < |search| :: search[j].0 != k by {
        forall j | i < j < |search|
          ensures search[j].0 != k
        {
          if j < last {
            assert search[j] == init[j];
          }
        }
      }
    }
  }

  /**
   * The fallback URL and the tracking map agree: a name kept in the map
   * occurs exactly once in the URL's query, with the map's value, and every
   * other name does not occur there at all.
   */
  lemma {:induction false} UtmQueryMatchesMap(search: seq<Param>, k: string)
    ensures CountName(UtmQuery(search), k) == (if k in UtmMap(search) then 1 else 0)
    ensures Lookup(UtmQuery(search), k) == (if k in UtmMap(search) then Some(UtmMap(search)[k]) else None)
  {
    if search != [] {
      UtmQueryMatchesMap(search[..|search| - 1], k);
    }
  }

  /**
   * The script's set-up: `None` when the slug guard makes it return at
   * once, otherwise the slug, the default embed id, the tracking map and the
   * fallback URL `https://givebutter.com/<slug>` carrying exactly the kept
   * query pairs.
   */
  method Configure(slugAttr: Option<string>, embedIdAttr: Option<string>, search: seq<Param>)
    returns (setup: Option<DonationSetup>)
    ensures setup.None? <==> slugAttr.None? || forall i | 0 <= i < |slugAttr.value| :: IsJsWhitespace(slugAttr.value[i])
    ensures setup.Some? ==>
      && setup.value.slug == ResolveSlug(slugAttr).value
      && setup.value.defaultEmbedId == TrimAttr(embedIdAttr)
      && setup.value.utmParams == UtmMap(search)
      && setup.value.fallbackUrl == Url(FALLBACK_BASE + setup.value.slug, UtmQuery(search))
  {
    var slug := ResolveSlug(slugAttr);
    var defaultEmbedId := TrimAttr(embedIdAttr);
    if slug.None? {
      return None;
    }
    var utmParams, query := FilterUtm(search);
    setup := Some(DonationSetup(slug.value, defaultEmbedId, utmParams, Url(FALLBACK_BASE + slug.value, query)));
  }
}
