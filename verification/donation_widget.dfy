/**
 * What the donation script does once the widget library has been looked
 * for: whether it is ready, which API object it uses, and which calling
 * convention each inline embed and popup trigger ends up using, with the
 * fallback URL as the last resort.
 *
 * The third-party library is seen only through the members the script
 * probes for; whether one of its calls throws is a parameter.
 */
module DonationWidget {
  import opened Common
  import opened DonationConfig

  /** The members of a widgets API object that the script tests before calling. */
  datatype WidgetsApi = WidgetsApi(hasCreate: bool, hasMount: bool, hasOpen: bool, isCallable: bool)

  /** `window.Givebutter` with its `widgets` and `Widget` members, each present or not. */
  datatype Givebutter = Givebutter(widgets: Option<WidgetsApi>, Widget: Option<WidgetsApi>)

  /** The library counts as loaded when the global exists and has `widgets` or `Widget`. */
  predicate IsReady(g: Option<Givebutter>)
    ensures g.None? ==> !IsReady(g)
    ensures g.Some? && g.value.widgets.None? && g.value.Widget.None? ==> !IsReady(g)
    ensures g.Some? && (g.value.widgets.Some? || g.value.Widget.Some?) ==> IsReady(g)
  {
    g.Some? && (g.value.widgets.Some? || g.value.Widget.Some?)
  }

  /** `givebutter.widgets || givebutter.Widget || null`. */
  function SelectApi(g: Givebutter): (api: Option<WidgetsApi>)
    ensures api.Some? <==> IsReady(Some(g))
    ensures g.widgets.Some? ==> api == g.widgets
    ensures g.widgets.None? ==> api == g.Widget
  {
    if g.widgets.Some? then g.widgets else g.Widget
  }

  /** Where the script stands once the library has been looked for. */
  datatype LoadStage =
    | Unavailable(clearInlineLoading: bool)
    | NoWidgetsApi
    | Ready(api: WidgetsApi)

  /**
   * The handler for the value the loader resolves with: nothing found
   * clears the inline container's loading state, a global without an API
   * object stops quietly, otherwise the selected API is used.
   */
  function AfterLoad(resolved: Option<Givebutter>, hasInline: bool): (s: LoadStage)
    ensures s.Unavailable? <==> resolved.None?
    ensures s.Unavailable? ==> s.clearInlineLoading == hasInline
    ensures s.Ready? <==> IsReady(resolved)
    ensures s.Ready? ==> SelectApi(resolved.value) == Some(s.api)
  {
    match resolved
    case None => Unavailable(hasInline)
    case Some(g) =>
      match SelectApi(g)
      case None => NoWidgetsApi
      case Some(api) => Ready(api)
  }

  /**
   * `attr?.trim() || fallbackId`: the trimmed attribute when it is not
   * empty, otherwise the default embed id, which may itself be absent or
   * empty.
   */
  function ResolveEmbedId(attr: Option<string>, fallbackId: Option<string>): (id: Option<string>)
    ensures attr.Some? && Trim(attr.value) != [] ==> id == Some(Trim(attr.value))
    ensures attr.None? || Trim(attr.value) == [] ==> id == fallbackId
  {
    if attr.Some? && Trim(attr.value) != [] then Some(Trim(attr.value)) else fallbackId
  }

  /** An embed id JavaScript treats as true: present and not empty. */
  predicate HasEmbedId(id: Option<string>)
  {
    id.Some? && id.value != []
  }

  /**
   * There is no usable embed id exactly when the attribute is absent or
   * blank and the default is absent or empty.
   */
  lemma NoEmbedIdIffBlank(attr: Option<string>, fallbackId: Option<string>)
    ensures !HasEmbedId(ResolveEmbedId(attr, fallbackId)) <==>
      (attr.None? || forall i | 0 <= i < |attr.value| :: IsJsWhitespace(attr.value[i])) && !HasEmbedId(fallbackId)
  {
    if attr.Some? {
      TrimEmptyIffBlank(attr.value);
    }
  }

  /** `getAttribute('data-givebutter-theme') || 'light'`. */
  function Theme(attr: Option<string>): (t: string)
    ensures t != []
    ensures attr.Some? && attr.value != [] ==> t == attr.value
  {
    if attr.Some? && attr.value != [] then attr.value else "light"
  }

  /** The three ways the script knows to call the library. */
  datatype Convention = Create | Mount | Callable

  /** The configuration object handed to the library (DOM references left out). */
  datatype WidgetConfig = WidgetConfig(
    slug: string,
    utm: map<string, string>,
    id: Option<string>,
    kind: string,
    theme: string)

  /** The attributes of the inline container that the script reads. */
  datatype InlineContainer = InlineContainer(embedIdAttr: Option<string>, themeAttr: Option<string>, hasPlaceholder: bool)

  datatype InlineOutcome =
    | NoContainer
      /** No embed id: the loading state is cleared and a fallback button is rendered if there is a placeholder. */
    | FallbackOffered(buttonRendered: bool)
      /** The convention called, if the API offers any, and whether its error was caught and logged. */
    | Attempted(call: Option<(Convention, WidgetConfig)>, warned: bool)

  /** The inline convention in priority order: `create`, then `mount`, then calling the API object itself. */
  function InlineConvention(api: WidgetsApi): (c: Option<Convention>)
    ensures c == Some(Create) <==> api.hasCreate
    ensures c == Some(Mount) <==> !api.hasCreate && api.hasMount
    ensures c == Some(Callable) <==> !api.hasCreate && !api.hasMount && api.isCallable
  {
    if api.hasCreate then Some(Create)
    else if api.hasMount then Some(Mount)
    else if api.isCallable then Some(Callable)
    else None
  }

  /**
   * `initializeInline`: at most one library call, with the resolved embed
   * id and the container's theme; an error it throws is caught.
   */
  function InitializeInline(setup: DonationSetup, container: Option<InlineContainer>, api: WidgetsApi, callThrows: bool)
    : (r: InlineOutcome)
    ensures r.NoContainer? <==> container.None?
    ensures container.Some? ==>
      (r.FallbackOffered? <==> !HasEmbedId(ResolveEmbedId(container.value.embedIdAttr, setup.defaultEmbedId)))
    ensures r.FallbackOffered? ==> r.buttonRendered == container.value.hasPlaceholder
    ensures r.Attempted? ==> (r.call.Some? <==> api.hasCreate || api.hasMount || api.isCallable)
    ensures r.Attempted? && r.call.Some? ==>
      && Some(r.call.value.0) == InlineConvention(api)
      && r.call.value.1 == WidgetConfig(setup.slug, setup.utmParams,
           ResolveEmbedId(container.value.embedIdAttr, setup.defaultEmbedId), "inline", Theme(container.value.themeAttr))
    ensures r.Attempted? ==> (r.warned <==> callThrows && r.call.Some?)
  {
    match container
    case None => NoContainer
    case Some(c) =>
      var embedId := ResolveEmbedId(c.embedIdAttr, setup.defaultEmbedId);
      if !HasEmbedId(embedId) then FallbackOffered(c.hasPlaceholder)
      else
        var config := WidgetConfig(setup.slug, setup.utmParams, embedId, "inline", Theme(c.themeAttr));
        match InlineConvention(api)
        case None => Attempted(None, false)
        case Some(conv) => Attempted(Some((conv, config)), callThrows)
  }

  /** The attributes of a popup trigger that the script reads. */
  datatype Trigger = Trigger(popupIdAttr: Option<string>, themeAttr: Option<string>)

  /**
   * A trigger after set-up: the configuration its clicks use, whether the
   * instance made by `create('popup', …)` has an `open` method, and whether
   * making that instance failed and was logged.
   */
  datatype PopupBinding = PopupBinding(config: WidgetConfig, instanceCanOpen: bool, warned: bool)

  /**
   * Set-up of one popup trigger. `createThrows` is whether `create` throws,
   * `instanceHasOpen` whether the instance it returns has `open`.
   */
  function BindPopup(setup: DonationSetup, trigger: Trigger, api: WidgetsApi, createThrows: bool, instanceHasOpen: bool)
    : (b: PopupBinding)
    ensures b.config.id == ResolveEmbedId(trigger.popupIdAttr, setup.defaultEmbedId)
    ensures b.config.theme == Theme(trigger.themeAttr) && b.config.kind == "popup"
    ensures b.config.slug == setup.slug && b.config.utm == setup.utmParams
    ensures b.instanceCanOpen <==> api.hasCreate && !createThrows && instanceHasOpen
    ensures b.warned <==> api.hasCreate && createThrows
  {
    var config := WidgetConfig(setup.slug, setup.utmParams,
      ResolveEmbedId(trigger.popupIdAttr, setup.defaultEmbedId), "popup", Theme(trigger.themeAttr));
    if !api.hasCreate then PopupBinding(config, false, false)
    else if createThrows then PopupBinding(config, false, true)
    else PopupBinding(config, instanceHasOpen, false)
  }

  /**
   * `initializePopup`: every trigger is set up on its own, from its own
   * attributes and its own `create` result.
   */
  function BindPopups(setup: DonationSetup, triggers: seq<Trigger>, api: WidgetsApi, creates: seq<(bool, bool)>)
    : (bs: seq<PopupBinding>)
    requires |creates| == |triggers|
    ensures |bs| == |triggers|
    ensures forall i | 0 <= i < |triggers| :: bs[i].config.id == ResolveEmbedId(triggers[i].popupIdAttr, setup.defaultEmbedId)
    ensures forall i | 0 <= i < |triggers| :: bs[i].config.theme == Theme(triggers[i].themeAttr)
    ensures forall i | 0 <= i < |triggers| :: (bs[i].instanceCanOpen <==> api.hasCreate && !creates[i].0 && creates[i].1)
  {
    seq(|triggers|, i requires 0 <= i < |triggers| => BindPopup(setup, triggers[i], api, creates[i].0, creates[i].1))
  }

  /** The call a popup click makes. */
  datatype OpenRoute = InstanceOpen | WidgetsOpen | WidgetsCall | NoApiRoute

  /** A click's route, the configuration passed with it, whether the fallback URL was opened and whether an error was logged. */
  datatype OpenOutcome = OpenOutcome(route: OpenRoute, config: Option<WidgetConfig>, openedFallback: bool, warned: bool)

  /**
   * `openViaApi`: the instance's `open`, else the API's `open`, else the API
   * called directly, else the fallback URL; an error thrown by the chosen
   * call is caught and also ends in the fallback URL.
   */
  function OpenViaApi(binding: PopupBinding, api: WidgetsApi, callThrows: bool): (r: OpenOutcome)
    ensures r.route == InstanceOpen <==> binding.instanceCanOpen
    ensures r.route == WidgetsOpen <==> !binding.instanceCanOpen && api.hasOpen
    ensures r.route == WidgetsCall <==> !binding.instanceCanOpen && !api.hasOpen && api.isCallable
    ensures r.config.Some? <==> r.route == WidgetsOpen || r.route == WidgetsCall
    ensures r.config.Some? ==> r.config.value == binding.config
    ensures r.openedFallback <==> r.route == NoApiRoute || callThrows
    ensures r.warned <==> r.route != NoApiRoute && callThrows
  {
    var route :=
      if binding.instanceCanOpen then InstanceOpen
      else if api.hasOpen then WidgetsOpen
      else if api.isCallable then WidgetsCall
      else NoApiRoute;
    var config := if route == WidgetsOpen || route == WidgetsCall then Some(binding.config) else None;
    if route == NoApiRoute then OpenOutcome(route, config, true, false)
    else OpenOutcome(route, config, callThrows, callThrows)
  }
}
