/**
 * The animation stage of `GLTFLoader`: every animation holds its samplers,
 * which designate input and output accessors, and its channels, which
 * designate one of the same animation's samplers and a target node.
 */
module AnimationStage {
  import opened Common
  import opened JsonTokens
  import opened Traverse
  import opened BufferStages
  import opened MeshStage

  const NoSamplers := Raised("No samplers found for animation.")
  const NoInput := Raised("Input accessor not found for sampler.")
  const NoOutput := Raised("Output accessor not found for sampler.")
  const NoChannels := Raised("No channels found for animation.")
  const NoChannelSampler := Raised("Sampler not found for channel.")
  const NoTarget := Raised("Target not found for channel.")
  const NoTargetNode := Raised("Node not found for channel target.")
  const NoTargetPath := Raised("Path not found for channel target.")

  datatype Interpolation = Linear | Step | Cubicspline

  datatype AnimationSampler = AnimationSampler(input: Accessor, output: Accessor, interpolation: Interpolation)

  /** A channel target: the index of the animated node and the path text as given. */
  datatype Target = Target(node: int, path: Text)

  datatype Channel = Channel(sampler: AnimationSampler, target: Target)

  datatype Animation = Animation(name: Option<string>, samplers: seq<AnimationSampler>, channels: seq<Channel>)

  /**
   * The interpolation a sampler gets: the text "STEP" or "CUBICSPLINE",
   * and LINEAR for anything else or nothing.
   */
  function InterpolationOf(token: Option<Json>): (r: Interpolation)
    ensures r == Step <==> token.Some? && ToText(token.value) == Plain("STEP")
    ensures r == Cubicspline <==> token.Some? && ToText(token.value) == Plain("CUBICSPLINE")
  {
    if token.None? then Linear
    else if ToText(token.value) == Plain("STEP") then Step
    else if ToText(token.value) == Plain("CUBICSPLINE") then Cubicspline
    else Linear
  }

  /** A mandatory reference `xs[token.Value<int>()]`; an absent member raises `missing`. */
  function RequiredRef<T>(token: Option<Json>, xs: seq<T>, missing: Fault): (r: Result<T>)
    ensures token.None? ==> r == Err(missing)
    ensures token.Some? ==> (r.Ok? <==> ValueInt(token.value).Ok? && 0 <= ValueInt(token.value).value < |xs|)
    ensures r.Ok? ==> r.value == xs[ValueInt(token.value).value]
  {
    if token.None? then Err(missing)
    else
      var index :- ValueInt(token.value);
      Pick(xs, index)
  }

  /** One animation sampler: `input` and `output` are mandatory accessor indices. */
  function SamplerEntry(accessors: seq<Accessor>, t: Json): (r: Result<AnimationSampler>)
    ensures !t.JObj? ==> r.Err?
    ensures t.JObj? && Lookup(t.props, "input").None? ==> r == Err(NoInput)
    ensures r.Ok? ==> t.JObj? && RequiredRef(Lookup(t.props, "input"), accessors, NoInput) == Ok(r.value.input)
                      && RequiredRef(Lookup(t.props, "output"), accessors, NoOutput) == Ok(r.value.output)
    ensures r.Ok? ==> r.value.interpolation == InterpolationOf(Lookup(t.props, "interpolation"))
  {
    var props :- Members(t);
    var input :- RequiredRef(Lookup(props, "input"), accessors, NoInput);
    var output :- RequiredRef(Lookup(props, "output"), accessors, NoOutput);
    Ok(AnimationSampler(input, output, InterpolationOf(Lookup(props, "interpolation"))))
  }

  function SamplerReader(accessors: seq<Accessor>): Json -> Result<AnimationSampler> {
    t => SamplerEntry(accessors, t)
  }

  /** A channel target: `node` designates one of `nodeCount` nodes, `path` is kept as text. */
  function TargetEntry(nodeCount: nat, t: Json): (r: Result<Target>)
    ensures !t.JObj? ==> r.Err?
    ensures t.JObj? && Lookup(t.props, "node").None? ==> r == Err(NoTargetNode)
    ensures r.Ok? ==> t.JObj? && 0 <= r.value.node < nodeCount
                      && ValueInt(Lookup(t.props, "node").value) == Ok(r.value.node)
    ensures r.Ok? ==> Lookup(t.props, "path").Some? && r.value.path == ToText(Lookup(t.props, "path").value)
    ensures t.JObj? && Lookup(t.props, "node").Some? && ValueInt(Lookup(t.props, "node").value).Ok? && 0 <= ValueInt(Lookup(t.props, "node").value).value < nodeCount ==>
      (r.Ok? <==> Lookup(t.props, "path").Some?)
  {
    var props :- Members(t);
    var jNode := Lookup(props, "node");
    if jNode.None? then Err(NoTargetNode)
    else
      var node :- ValueInt(jNode.value);
      if !(0 <= node < nodeCount) then Err(IndexOutOfRange)
      else if Lookup(props, "path").None? then Err(NoTargetPath)
      else Ok(Target(node, ToText(Lookup(props, "path").value)))
  }

  /** One channel: `sampler` indexes this animation's samplers; `target` is mandatory. */
  function ChannelEntry(samplers: seq<AnimationSampler>, nodeCount: nat, t: Json): (r: Result<Channel>)
    ensures !t.JObj? ==> r.Err?
    ensures t.JObj? && Lookup(t.props, "sampler").None? ==> r == Err(NoChannelSampler)
    ensures r.Ok? ==> t.JObj? && r.value.sampler in samplers
                      && RequiredRef(Lookup(t.props, "sampler"), samplers, NoChannelSampler) == Ok(r.value.sampler)
    ensures r.Ok? ==> Lookup(t.props, "target").Some? && TargetEntry(nodeCount, Lookup(t.props, "target").value) == Ok(r.value.target)
  {
    var props :- Members(t);
    var sampler :- RequiredRef(Lookup(props, "sampler"), samplers, NoChannelSampler);
    var jTarget := Lookup(props, "target");
    if jTarget.None? then Err(NoTarget)
    else
      var target :- TargetEntry(nodeCount, jTarget.value);
      Ok(Channel(sampler, target))
  }

  function ChannelReader(samplers: seq<AnimationSampler>, nodeCount: nat): Json -> Result<Channel> {
    t => ChannelEntry(samplers, nodeCount, t)
  }

  /**
   * One animation: a string `name` if any, then the mandatory `samplers`,
   * then the mandatory `channels`, which refer to those samplers.
   */
  function AnimationEntry(accessors: seq<Accessor>, nodeCount: nat, t: Json): (r: Result<Animation>)
    ensures !t.JObj? ==> r.Err?
    ensures t.JObj? && Lookup(t.props, "samplers").None? ==> r == Err(NoSamplers)
    ensures r.Ok? ==> t.JObj? && r.value.name == StringName(Lookup(t.props, "name"))
    ensures r.Ok? ==> Lookup(t.props, "samplers").Some? && Entries(Lookup(t.props, "samplers")).Ok?
                      && MapAll(Entries(Lookup(t.props, "samplers")).value, SamplerReader(accessors)) == Ok(r.value.samplers)
    ensures r.Ok? ==> Lookup(t.props, "channels").Some? && Entries(Lookup(t.props, "channels")).Ok?
                      && MapAll(Entries(Lookup(t.props, "channels")).value, ChannelReader(r.value.samplers, nodeCount))
                         == Ok(r.value.channels)
  {
    var props :- Members(t);
    var jSamplers := Lookup(props, "samplers");
    if jSamplers.None? then Err(NoSamplers)
    else
      var samplerItems :- Entries(jSamplers);
      var samplers :- MapAll(samplerItems, SamplerReader(accessors));
      var jChannels := Lookup(props, "channels");
      if jChannels.None? then Err(NoChannels)
      else
        var channelItems :- Entries(jChannels);
        var channels :- MapAll(channelItems, ChannelReader(samplers, nodeCount));
        Ok(Animation(StringName(Lookup(props, "name")), samplers, channels))
  }

  /** The body of the animation loop: the sampler loop, then the channel loop. */
  method LoadAnimation(accessors: seq<Accessor>, nodeCount: nat, t: Json) returns (r: Result<Animation>)
    ensures r == AnimationEntry(accessors, nodeCount, t)
  {
    var props :- Members(t);
    var jSamplers := Lookup(props, "samplers");
    if jSamplers.None? {
      return Err(NoSamplers);
    }
    var samplerItems :- Entries(jSamplers);
    var samplers :- Fill(samplerItems, SamplerReader(accessors));
    var jChannels := Lookup(props, "channels");
    if jChannels.None? {
      return Err(NoChannels);
    }
    var channelItems :- Entries(jChannels);
    var channels :- Fill(channelItems, ChannelReader(samplers[..], nodeCount));
    return Ok(Animation(StringName(Lookup(props, "name")), samplers[..], channels[..]));
  }

  function AnimationReader(accessors: seq<Accessor>, nodeCount: nat): Json -> Result<Animation> {
    t => AnimationEntry(accessors, nodeCount, t)
  }

  /** `LoadAnimations`: one animation per entry. */
  function LoadAnimationsSpec(jAnimations: Option<Json>, accessors: seq<Accessor>, nodeCount: nat): (r: Result<seq<Animation>>)
    ensures jAnimations.None? ==> r == Err(ArgumentNull)
    ensures r.Ok? ==> Entries(jAnimations).Ok? && |r.value| == |Entries(jAnimations).value|
  {
    var items :- Entries(jAnimations);
    MapAll(items, AnimationReader(accessors, nodeCount))
  }

  /**
   * After the stage every channel plays one of its own animation's samplers
   * and targets one of the nodes, and every sampler reads two of the
   * accessors.
   */
  lemma AnimationsResolved(jAnimations: Option<Json>, accessors: seq<Accessor>, nodeCount: nat)
    requires LoadAnimationsSpec(jAnimations, accessors, nodeCount).Ok?
    ensures var animations := LoadAnimationsSpec(jAnimations, accessors, nodeCount).value;
      forall i :: 0 <= i < |animations| ==>
        && (forall c :: 0 <= c < |animations[i].channels| ==>
              animations[i].channels[c].sampler in animations[i].samplers
              && 0 <= animations[i].channels[c].target.node < nodeCount)
        && (forall s :: 0 <= s < |animations[i].samplers| ==>
              animations[i].samplers[s].input in accessors && animations[i].samplers[s].output in accessors)
  {
    var items := Entries(jAnimations).value;
    var animations := LoadAnimationsSpec(jAnimations, accessors, nodeCount).value;
    forall i | 0 <= i < |animations|
      ensures forall c :: 0 <= c < |animations[i].channels| ==>
                animations[i].channels[c].sampler in animations[i].samplers
                && 0 <= animations[i].channels[c].target.node < nodeCount
      ensures forall s :: 0 <= s < |animations[i].samplers| ==>
                animations[i].samplers[s].input in accessors && animations[i].samplers[s].output in accessors
    {
      var animation := animations[i];
      assert AnimationReader(accessors, nodeCount)(items[i]) == Ok(animation);
      var samplerItems := Entries(Lookup(items[i].props, "samplers")).value;
      var channelItems := Entries(Lookup(items[i].props, "channels")).value;
      forall c | 0 <= c < |animation.channels|
        ensures animation.channels[c].sampler in animation.samplers
        ensures 0 <= animation.channels[c].target.node < nodeCount
      {
        assert ChannelReader(animation.samplers, nodeCount)(channelItems[c]) == Ok(animation.channels[c]);
      }
      forall s | 0 <= s < |animation.samplers|
        ensures animation.samplers[s].input in accessors && animation.samplers[s].output in accessors
      {
        assert SamplerReader(accessors)(samplerItems[s]) == Ok(animation.samplers[s]);
      }
    }
  }

  /** One turn of the animation loop: build entry `t` and store it at `a`. */
  method StoreAnimation(animations: array<Animation>, a: nat, accessors: seq<Accessor>, nodeCount: nat, t: Json)
    returns (r: Result<Animation>)
    requires a < animations.Length
    modifies animations
    ensures r == AnimationEntry(accessors, nodeCount, t)
    ensures r.Ok? ==> animations[..] == old(animations[..])[a := r.value]
  {
    r := LoadAnimation(accessors, nodeCount, t);
    if r.Ok? {
      animations[a] := r.value;
    }
  }

  /** `LoadAnimations`: the loop that fills `new Animation[jAnimations.Count()]`. */
  method LoadAnimations(jAnimations: Option<Json>, accessors: seq<Accessor>, nodeCount: nat) returns (r: Result<array<Animation>>)
    ensures r.Ok? <==> LoadAnimationsSpec(jAnimations, accessors, nodeCount).Ok?
    ensures r.Err? ==> r.error == LoadAnimationsSpec(jAnimations, accessors, nodeCount).error
    ensures r.Ok? ==> fresh(r.value) && r.value[..] == LoadAnimationsSpec(jAnimations, accessors, nodeCount).value
  {
    var items :- Entries(jAnimations);
    ghost var rd := AnimationReader(accessors, nodeCount);
    var animations := new Animation[|items|];
    var a := 0;
    while a < |items|
      invariant 0 <= a <= |items|
      invariant forall q :: 0 <= q < a ==> rd(items[q]) == Ok(animations[q])
    {
      var animation := StoreAnimation(animations, a, accessors, nodeCount, items[a]);
      assert rd(items[a]) == animation;
      if animation.Err? {
        MapAllFirstErr(items, a, rd);
        return Err(animation.error);
      }
      a := a + 1;
    }
    MapAllAllOk(items, rd, animations[..]);
    return Ok(animations);
  }
}
