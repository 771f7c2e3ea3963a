/**
 * `msNet` at the level of tensor shapes and provenance.
 *
 * A tensor is its shape `(N, C, H, W)` together with a symbolic term recording
 * which layers produced it. Layer numerics (convolutions, the wavelet filters,
 * the bilinear kernels, the sigmoid) are not modelled; what is modelled is which
 * layer reads which tensor, the channel widths each layer declares, the spatial
 * sizes each stage produces, and the exceptions raised when they disagree.
 */
module MsNet {
  import opened PySemantics

  datatype Shape = Shape(n: nat, c: nat, h: nat, w: nat)

  /** The four sub-bands of a one-level wavelet decomposition. */
  datatype Band = CA | CH | CV | CD

  /** How a tensor was computed, layer by layer. */
  datatype Expr =
    | Image
    | Block(layer: string, arg: Expr)
    | Conv(layer: string, arg: Expr)
    | Wavelet(band: Band, arg: Expr)
    | Cat(parts: seq<Expr>)
    | Upsample(stride: nat, kernel: nat, arg: Expr)
    | Crop(height: nat, width: nat, arg: Expr)
    | Sigmoid(arg: Expr)

  datatype Tensor = Tensor(shape: Shape, expr: Expr)

  /** An encoder stage: its width change and whether it max-pools by 2 first. */
  datatype Stage = Stage(layer: string, inC: nat, outC: nat, pools: bool)

  /** A 1x1 convolution with its declared input and output widths. */
  datatype Conv1x1 = Conv1x1(layer: string, inC: nat, outC: nat)

  const InputChannels: nat := 3

  /** The five encoder stages; stages 2 to 5 halve the spatial size. */
  const Encoder: seq<Stage> := [
    Stage("conv1", 3, 64, false),
    Stage("conv2", 64, 128, true),
    Stage("conv3", 128, 256, true),
    Stage("conv4", 256, 512, true),
    Stage("conv5", 512, 512, true)
  ]

  /** The side-output heads, one per encoder stage. */
  const Dsn: seq<Conv1x1> := [
    Conv1x1("dsn1", 64, 1),
    Conv1x1("dsn2", 128, 1),
    Conv1x1("dsn3", 256, 1),
    Conv1x1("dsn4", 512, 1),
    Conv1x1("dsn5", 512, 1)
  ]

  /** The final fusion head over the five aligned side outputs. */
  const FuseHead: Conv1x1 := Conv1x1("fuse", 5, 1)

  /** The wavelet-fusion layers for scales 2 to 5: side output plus three detail bands. */
  const FuseW: seq<Conv1x1> := [
    Conv1x1("fusew_2", 4, 1),
    Conv1x1("fusew_3", 4, 1),
    Conv1x1("fusew_4", 4, 1),
    Conv1x1("fusew_5", 4, 1)
  ]

  /** Transposed-convolution strides and bilinear kernel sizes for side outputs 2 to 5. */
  const Strides: seq<nat> := [2, 4, 8, 16]
  const Kernels: seq<nat> := [4, 8, 16, 32]

  /** The layers holding parameters, in the order the constructor registers them (the wavelet transform sits between `fuse` and `fusew_2`). */
  const HeadLayers: seq<string> := ["dsn1", "dsn2", "dsn3", "dsn4", "dsn5", "fuse"]
  const FuseWLayers: seq<string> := ["fusew_2", "fusew_3", "fusew_4", "fusew_5"]

  /** The detail bands fed forward by the cascade; the approximation band is not among them. */
  const DetailBands: seq<Band> := [CH, CV, CD]

  // ---------------------------------------------------------------- layers

  predicate NonEmpty(t: Tensor) {
    t.shape.h >= 1 && t.shape.w >= 1
  }

  /** An encoder stage: a width check, then (for stages 2 to 5) a 2x2 max-pool that fails on a dimension below 2. */
  function ApplyStage(st: Stage, x: Tensor): (r: Result<Tensor>)
    ensures r.Ok? <==> x.shape.c == st.inC && (st.pools ==> x.shape.h >= 2 && x.shape.w >= 2)
    ensures x.shape.c != st.inC ==> r == Err(ChannelMismatch(st.layer, st.inC, x.shape.c))
    ensures x.shape.c == st.inC && r.Err? ==> r == Err(OutputTooSmall(st.layer))
    ensures r.Ok? ==> r.value.shape.n == x.shape.n && r.value.shape.c == st.outC
    ensures r.Ok? && !st.pools ==> r.value.shape.h == x.shape.h && r.value.shape.w == x.shape.w
    ensures r.Ok? && st.pools ==> 2 * r.value.shape.h <= x.shape.h < 2 * r.value.shape.h + 2
    ensures r.Ok? && st.pools ==> 2 * r.value.shape.w <= x.shape.w < 2 * r.value.shape.w + 2
    ensures NonEmpty(x) && r.Ok? ==> NonEmpty(r.value)
  {
    if x.shape.c != st.inC then Err(ChannelMismatch(st.layer, st.inC, x.shape.c))
    else if st.pools && (x.shape.h < 2 || x.shape.w < 2) then Err(OutputTooSmall(st.layer))
    else
      var h := if st.pools then x.shape.h / 2 else x.shape.h;
      var w := if st.pools then x.shape.w / 2 else x.shape.w;
      Ok(Tensor(Shape(x.shape.n, st.outC, h, w), Block(st.layer, x.expr)))
  }

  /** A 1x1 convolution keeps the spatial size and checks the input width. */
  function ApplyConv(cv: Conv1x1, x: Tensor): (r: Result<Tensor>)
    ensures r.Ok? <==> x.shape.c == cv.inC
    ensures r.Err? ==> r.error == ChannelMismatch(cv.layer, cv.inC, x.shape.c)
    ensures r.Ok? ==> r.value.shape == x.shape.(c := cv.outC) && r.value.expr == Conv(cv.layer, x.expr)
  {
    if x.shape.c != cv.inC then Err(ChannelMismatch(cv.layer, cv.inC, x.shape.c))
    else Ok(Tensor(x.shape.(c := cv.outC), Conv(cv.layer, x.expr)))
  }

  /** One sub-band of the wavelet transform; its spatial size is whatever the transform `dwt` produces. */
  function WaveletBand(dwt: (nat, nat) -> (nat, nat), band: Band, x: Tensor): Tensor {
    var size := dwt(x.shape.h, x.shape.w);
    Tensor(Shape(x.shape.n, x.shape.c, size.0, size.1), Wavelet(band, x.expr))
  }

  function ChannelSum(ts: seq<Tensor>): nat {
    if ts == [] then 0 else ChannelSum(ts[..|ts| - 1]) + ts[|ts| - 1].shape.c
  }

  function Exprs(ts: seq<Tensor>): (es: seq<Expr>)
    ensures |es| == |ts| && forall i :: 0 <= i < |ts| ==> es[i] == ts[i].expr
  {
    seq(|ts|, i requires 0 <= i < |ts| => ts[i].expr)
  }

  /** `torch.cat(ts, dim=1)`: all dimensions but the channels must agree, and the widths add up. */
  function CatTensors(ts: seq<Tensor>): (r: Result<Tensor>)
    requires ts != []
    ensures r.Ok? <==> forall i :: 0 <= i < |ts| ==>
      ts[i].shape.n == ts[0].shape.n && ts[i].shape.h == ts[0].shape.h && ts[i].shape.w == ts[0].shape.w
    ensures r.Err? ==> r.error == SizeMismatch
    ensures r.Ok? ==> r.value == Tensor(ts[0].shape.(c := ChannelSum(ts)), Cat(Exprs(ts)))
  {
    var s := ts[0].shape;
    if forall i :: 0 <= i < |ts| ==> ts[i].shape.n == s.n && ts[i].shape.h == s.h && ts[i].shape.w == s.w then
      Ok(Tensor(Shape(s.n, ChannelSum(ts), s.h, s.w), Cat(Exprs(ts))))
    else Err(SizeMismatch)
  }

  /** `conv_transpose2d` with a single-channel `kernel` x `kernel` weight: the output side is `(h - 1) * stride + kernel`. */
  function ConvTranspose(x: Tensor, stride: nat, kernel: nat): (r: Result<Tensor>)
    requires NonEmpty(x)
    ensures r.Ok? <==> x.shape.c == 1
    ensures r.Err? ==> r.error == ChannelMismatch("conv_transpose2d", 1, x.shape.c)
    ensures r.Ok? ==> r.value.shape == Shape(x.shape.n, 1, (x.shape.h - 1) * stride + kernel, (x.shape.w - 1) * stride + kernel)
    ensures r.Ok? ==> r.value.shape.h >= kernel && r.value.shape.w >= kernel
  {
    if x.shape.c != 1 then Err(ChannelMismatch("conv_transpose2d", 1, x.shape.c))
    else
      var h := (x.shape.h - 1) * stride + kernel;
      var w := (x.shape.w - 1) * stride + kernel;
      Ok(Tensor(Shape(x.shape.n, 1, h, w), Upsample(stride, kernel, x.expr)))
  }

  /** Cropping to `height` x `width` succeeds only when the map is at least that large. */
  function CropTo(x: Tensor, height: nat, width: nat): (r: Result<Tensor>)
    ensures r.Ok? <==> height <= x.shape.h && width <= x.shape.w
    ensures r.Err? ==> r.error == CropTooLarge
    ensures r.Ok? ==> r.value.shape == x.shape.(h := height, w := width)
  {
    if x.shape.h < height || x.shape.w < width then Err(CropTooLarge)
    else Ok(Tensor(x.shape.(h := height, w := width), Crop(height, width, x.expr)))
  }

  function ApplySigmoid(x: Tensor): Tensor {
    Tensor(x.shape, Sigmoid(x.expr))
  }

  // ---------------------------------------------------------------- forward pass

  /** The first `k` encoder feature maps. */
  function Features(x: Tensor, k: nat): (r: Result<seq<Tensor>>)
    requires k <= 5
    ensures r.Ok? ==> |r.value| == k
    ensures r.Ok? ==> forall i :: 0 <= i < k ==> r.value[i].shape.n == x.shape.n && r.value[i].shape.c == Encoder[i].outC
    ensures r.Err? ==> r.error.ChannelMismatch? || r.error.OutputTooSmall?
    ensures NonEmpty(x) && r.Ok? ==> forall i :: 0 <= i < k ==> NonEmpty(r.value[i])
  {
    if k == 0 then Ok([])
    else
      var prev :- Features(x, k - 1);
      var next :- ApplyStage(Encoder[k - 1], if k == 1 then x else prev[k - 2]);
      Ok(prev + [next])
  }

  /** Concatenates a side output with the three detail bands of the previous scale and applies `layer`. */
  function FuseStep(dwt: (nat, nat) -> (nat, nat), layer: Conv1x1, raw: Tensor, previous: Tensor): (r: Result<Tensor>)
    ensures r.Ok? ==> dwt(previous.shape.h, previous.shape.w) == (raw.shape.h, raw.shape.w)
    ensures r.Ok? ==> r.value == Tensor(raw.shape.(c := layer.outC), Conv(layer.layer, Cat([raw.expr,
      Wavelet(CH, previous.expr), Wavelet(CV, previous.expr), Wavelet(CD, previous.expr)])))
    ensures r.Err? ==> r.error == SizeMismatch || r.error.ChannelMismatch?
    ensures NonEmpty(raw) && r.Ok? ==> NonEmpty(r.value)
  {
    var parts := [raw] + seq(3, b requires 0 <= b < 3 => WaveletBand(dwt, DetailBands[b], previous));
    assert Exprs(parts) == [raw.expr, Wavelet(CH, previous.expr), Wavelet(CV, previous.expr), Wavelet(CD, previous.expr)];
    var cat :- CatTensors(parts);
    assert parts[1].shape.h == raw.shape.h && parts[1].shape.w == raw.shape.w;
    ApplyConv(layer, cat)
  }

  /**
   * The first `k` side outputs. Without wavelet input each is its head applied to its
   * feature map; with it, every side output after the first is fused with the detail
   * bands of the already fused output before it.
   */
  function Sides(dwt: (nat, nat) -> (nat, nat), fused: bool, feats: seq<Tensor>, k: nat): (r: Result<seq<Tensor>>)
    requires 1 <= k <= |feats| == 5
    ensures r.Ok? ==> |r.value| == k
    ensures r.Ok? ==> forall i :: 0 <= i < k ==> r.value[i].shape == feats[i].shape.(c := 1)
    ensures !fused ==> (r.Ok? <==> forall i :: 0 <= i < k ==> feats[i].shape.c == Dsn[i].inC)
    ensures r.Err? ==> r.error == SizeMismatch || r.error.ChannelMismatch?
    ensures (forall i :: 0 <= i < 5 ==> NonEmpty(feats[i])) && r.Ok? ==> forall i :: 0 <= i < k ==> NonEmpty(r.value[i])
  {
    if k == 1 then
      var so1 :- ApplyConv(Dsn[0], feats[0]);
      Ok([so1])
    else
      var prev :- Sides(dwt, fused, feats, k - 1);
      var raw :- ApplyConv(Dsn[k - 1], feats[k - 1]);
      if !fused then Ok(prev + [raw])
      else
        var so :- FuseStep(dwt, FuseW[k - 2], raw, prev[k - 2]);
        Ok(prev + [so])
  }

  /** The side outputs after upsampling: the first as it is, the others by `conv_transpose2d` with their stride and bilinear kernel. */
  function Upsampled(sides: seq<Tensor>, k: nat): (r: Result<seq<Tensor>>)
    requires k <= |sides| == 5 && forall i :: 0 <= i < 5 ==> NonEmpty(sides[i])
    ensures r.Ok? <==> forall i :: 1 <= i < k ==> sides[i].shape.c == 1
    ensures r.Err? ==> r.error.ChannelMismatch?
    ensures r.Ok? ==> |r.value| == k
    ensures r.Ok? && k > 0 ==> r.value[0] == sides[0]
    ensures r.Ok? ==> forall i :: 1 <= i < k ==>
      && r.value[i].shape.h == (sides[i].shape.h - 1) * Strides[i - 1] + Kernels[i - 1]
      && r.value[i].shape.w == (sides[i].shape.w - 1) * Strides[i - 1] + Kernels[i - 1]
  {
    if k == 0 then Ok([])
    else
      var prev :- Upsampled(sides, k - 1);
      var next :- if k == 1 then Ok(sides[0]) else ConvTranspose(sides[k - 1], Strides[k - 2], Kernels[k - 2]);
      Ok(prev + [next])
  }

  /** Every map cropped to `height` x `width`, failing on the first one that is too small. */
  function Cropped(ts: seq<Tensor>, height: nat, width: nat): (r: Result<seq<Tensor>>)
    ensures r.Ok? <==> forall i :: 0 <= i < |ts| ==> height <= ts[i].shape.h && width <= ts[i].shape.w
    ensures r.Err? ==> r.error == CropTooLarge
    ensures r.Ok? ==> |r.value| == |ts| && forall i :: 0 <= i < |ts| ==>
      r.value[i] == Tensor(ts[i].shape.(h := height, w := width), Crop(height, width, ts[i].expr))
  {
    if ts == [] then Ok([])
    else
      var prev :- Cropped(ts[..|ts| - 1], height, width);
      var last :- CropTo(ts[|ts| - 1], height, width);
      Ok(prev + [last])
  }

  /** Concatenates the five aligned maps for the fusion head and applies the sigmoid to all six maps. */
  function Fuse(aligned: seq<Tensor>): (r: Result<seq<Tensor>>)
    requires |aligned| == 5
    ensures r.Ok? <==> CatTensors(aligned).Ok? && ChannelSum(aligned) == FuseHead.inC
    ensures r.Err? ==> r.error == SizeMismatch || r.error == ChannelMismatch(FuseHead.layer, FuseHead.inC, ChannelSum(aligned))
    ensures r.Ok? ==> |r.value| == 6
    ensures r.Ok? ==> forall i :: 0 <= i < 5 ==> r.value[i] == ApplySigmoid(aligned[i])
    ensures r.Ok? ==> r.value[5] == Tensor(aligned[0].shape.(c := FuseHead.outC), Sigmoid(Conv(FuseHead.layer, Cat(Exprs(aligned)))))
  {
    var fusecat :- CatTensors(aligned);
    var fuse :- ApplyConv(FuseHead, fusecat);
    var results := aligned + [fuse];
    Ok(seq(6, i requires 0 <= i < 6 => ApplySigmoid(results[i])))
  }

  /** The head: upsamples the five side outputs, crops them to `height` x `width`, and fuses them. */
  function Head(sides: seq<Tensor>, height: nat, width: nat): (r: Result<seq<Tensor>>)
    requires |sides| == 5 && forall i :: 0 <= i < 5 ==> NonEmpty(sides[i])
    ensures r.Ok? ==> |r.value| == 6
    ensures r.Ok? ==> forall i :: 0 <= i < 6 ==> r.value[i].shape.h == height && r.value[i].shape.w == width
    ensures r.Err? ==> r.error == SizeMismatch || r.error == CropTooLarge || r.error.ChannelMismatch?
  {
    var upsampled :- Upsampled(sides, 5);
    var cropped :- Cropped(upsampled, height, width);
    Fuse(cropped)
  }

  /**
   * `msNet.forward(x, w)`. Only whether `w` is present matters; the transform applied
   * to the side outputs in the wavelet branch is `dwt`, given as the output size it
   * produces. Returns the six maps so1 to so5 and the fused map, in that order.
   */
  function Forward<W>(x: Shape, w: Option<W>, dwt: (nat, nat) -> (nat, nat)): (r: Result<seq<Tensor>>)
    requires x.h >= 1 && x.w >= 1
    ensures r.Ok? ==> |r.value| == 6
    ensures r.Ok? ==> forall i :: 0 <= i < 6 ==> r.value[i].shape.h == x.h && r.value[i].shape.w == x.w
    ensures r.Err? ==> r.error == SizeMismatch || r.error == CropTooLarge || r.error.ChannelMismatch? || r.error.OutputTooSmall?
  {
    var feats :- Features(Tensor(x, Image), 5);
    var sides :- Sides(dwt, w.Some?, feats, 5);
    Head(sides, x.h, x.w)
  }

  // ---------------------------------------------------------------- reference terms

  /** The spatial size after `i` successive floor halvings: stage `i + 1`'s resolution. */
  function Halve(h: nat, i: nat): nat {
    if i == 0 then h else Halve(h, i - 1) / 2
  }

  /** The feature map of encoder stage `i + 1`: stages 1 to `i + 1` applied to the image in order. */
  function FeatureRef(i: nat): Expr
    requires i < 5
  {
    Block(Encoder[i].layer, if i == 0 then Image else FeatureRef(i - 1))
  }

  /** The plain side output of stage `i + 1`. */
  function DsnRef(i: nat): Expr
    requires i < 5
  {
    Conv(Dsn[i].layer, FeatureRef(i))
  }

  /** Side output `i + 1` as the source's two branches define it. */
  function SideRef(i: nat, fused: bool): Expr
    requires i < 5
  {
    if i == 0 || !fused then DsnRef(i)
    else
      var previous := SideRef(i - 1, true);
      Conv(FuseW[i - 1].layer, Cat([DsnRef(i), Wavelet(CH, previous), Wavelet(CV, previous), Wavelet(CD, previous)]))
  }

  /** Side output `i + 1` upsampled, except the first. */
  function UpsampledRef(i: nat, fused: bool): Expr
    requires i < 5
  {
    if i == 0 then SideRef(0, fused) else Upsample(Strides[i - 1], Kernels[i - 1], SideRef(i, fused))
  }

  /** Side output `i + 1` upsampled and cropped to the input size. */
  function AlignedRef(i: nat, fused: bool, height: nat, width: nat): Expr
    requires i < 5
  {
    Crop(height, width, UpsampledRef(i, fused))
  }

  /** The five aligned side outputs, in order. */
  function AlignedRefs(fused: bool, height: nat, width: nat): seq<Expr> {
    [AlignedRef(0, fused, height, width), AlignedRef(1, fused, height, width), AlignedRef(2, fused, height, width),
     AlignedRef(3, fused, height, width), AlignedRef(4, fused, height, width)]
  }

  /** The wavelet transform maps the size of scale `i` to the size of scale `i + 1`, so its bands line up with the next side output. */
  predicate WaveletAligned(dwt: (nat, nat) -> (nat, nat), height: nat, width: nat, i: nat) {
    1 <= i && dwt(Halve(height, i - 1), Halve(width, i - 1)) == (Halve(height, i), Halve(width, i))
  }

  /** Some node of `e` satisfies `p`. */
  predicate Anywhere(e: Expr, p: Expr -> bool)
    decreases e
  {
    p(e) ||
    match e
    case Image => false
    case Block(_, a) => Anywhere(a, p)
    case Conv(_, a) => Anywhere(a, p)
    case Wavelet(_, a) => Anywhere(a, p)
    case Cat(parts) => exists i | 0 <= i < |parts| :: Anywhere(parts[i], p)
    case Upsample(_, _, a) => Anywhere(a, p)
    case Crop(_, _, a) => Anywhere(a, p)
    case Sigmoid(a) => Anywhere(a, p)
  }

  /** The layer named `layer` took part in computing `e`. */
  predicate Mentions(e: Expr, layer: string) {
    Anywhere(e, (n: Expr) => (n.Block? || n.Conv?) && n.layer == layer)
  }

  /** The sub-band `band` of some wavelet transform took part in computing `e`. */
  predicate UsesBand(e: Expr, band: Band) {
    Anywhere(e, (n: Expr) => n.Wavelet? && n.band == band)
  }

  /** `s` occurs inside `e`. */
  predicate SubTerm(s: Expr, e: Expr) {
    Anywhere(e, (n: Expr) => n == s)
  }

  // ---------------------------------------------------------------- sizes

  /** The stage resolutions are the input size divided by 2, 4, 8 and 16, rounded down: the upsampling strides. */
  lemma StageSizes(h: nat)
    ensures forall i :: 1 <= i < 5 ==> Halve(h, i) == h / Strides[i - 1]
  {
    assert Halve(h, 1) == h / 2;
    assert Halve(h, 2) == h / 4;
    assert Halve(h, 3) == h / 8;
    assert Halve(h, 4) == h / 16;
  }

  /** Every pooling stage has at least two rows (columns) to pool exactly when the input has at least 16. */
  lemma PoolThreshold(h: nat)
    ensures (forall i :: 0 <= i < 4 ==> Halve(h, i) >= 2) <==> h >= 16
  {
    StageSizes(h);
    if h >= 16 {
      forall i | 0 <= i < 4
        ensures Halve(h, i) >= 2
      {
        if i > 0 {
          assert Halve(h, i) == h / Strides[i - 1];
        }
      }
    } else {
      assert !(Halve(h, 3) >= 2);
    }
  }

  /**
   * Upsampling side output `i + 1` with kernel twice its stride covers the input:
   * a map of `h / s` rows becomes `(h / s - 1) * s + 2 * s = (h / s + 1) * s` rows, more than `h`.
   */
  lemma UpsampleCovers(h: nat, i: nat)
    requires 1 <= i < 5
    ensures Kernels[i - 1] == 2 * Strides[i - 1]
    ensures (Halve(h, i) + 1) * Strides[i - 1] > h
  {
    StageSizes(h);
  }

  // ---------------------------------------------------------------- forward pass against the reference

  /** Each stage reads the width the previous one writes, and every stage after the first pools. */
  lemma EncoderChains(i: nat)
    requires 1 <= i < 5
    ensures Encoder[i].inC == Encoder[i - 1].outC && Encoder[i].pools
  {
  }

  /**
   * The encoder succeeds exactly on 3-channel input whose every pooled stage has at
   * least two rows and columns, and stage `i + 1` then has width `Encoder[i].outC`,
   * the `i`-times-halved size, and the chain of stages 1 to `i + 1` as provenance.
   */
  lemma {:induction false} FeaturesSpec(x: Shape, k: nat)
    requires 1 <= k <= 5
    ensures var r := Features(Tensor(x, Image), k);
      && (r.Ok? <==> x.c == InputChannels && forall i :: 0 <= i < k - 1 ==> Halve(x.h, i) >= 2 && Halve(x.w, i) >= 2)
      && (r.Ok? ==> forall i :: 0 <= i < k ==>
            r.value[i] == Tensor(Shape(x.n, Encoder[i].outC, Halve(x.h, i), Halve(x.w, i)), FeatureRef(i)))
      && (x.c != InputChannels ==> r == Err(ChannelMismatch(Encoder[0].layer, InputChannels, x.c)))
      && (x.c == InputChannels && r.Err? ==> r.error.OutputTooSmall?)
  {
    var t := Tensor(x, Image);
    if k > 1 {
      FeaturesSpec(x, k - 1);
      var prev := Features(t, k - 1);
      if prev.Ok? {
        EncoderChains(k - 1);
        assert Halve(x.h, k - 1) == Halve(x.h, k - 2) / 2;
        assert Halve(x.w, k - 1) == Halve(x.w, k - 2) / 2;
      }
    }
  }

  /** `feats` are the five encoder outputs for an input of shape `x`. */
  predicate EncoderOutputs(x: Shape, feats: seq<Tensor>) {
    |feats| == 5 &&
    forall i :: 0 <= i < 5 ==>
      feats[i] == Tensor(Shape(x.n, Encoder[i].outC, Halve(x.h, i), Halve(x.w, i)), FeatureRef(i))
  }

  /** Each head reads the width its encoder stage writes, and every fusion layer takes one plus three channels. */
  lemma HeadsFit(i: nat)
    requires i < 5
    ensures Dsn[i].inC == Encoder[i].outC && Dsn[i].outC == 1
    ensures 1 <= i ==> FuseW[i - 1].inC == 1 + |DetailBands| && FuseW[i - 1].outC == 1
  {
  }

  /** Four single-channel maps concatenate to four channels. */
  lemma ChannelSumOfOnes(ts: seq<Tensor>)
    requires forall i :: 0 <= i < |ts| ==> ts[i].shape.c == 1
    ensures ChannelSum(ts) == |ts|
  {
    if ts != [] {
      ChannelSumOfOnes(ts[..|ts| - 1]);
    }
  }

  /** One fusion step succeeds exactly when the previous output's bands have the side output's size, and is then single-channel at that size. */
  lemma FuseStepSpec(dwt: (nat, nat) -> (nat, nat), j: nat, raw: Tensor, previous: Tensor)
    requires j < 4 && raw.shape.c == 1 && previous.shape.c == 1 && raw.shape.n == previous.shape.n
    ensures var r := FuseStep(dwt, FuseW[j], raw, previous);
      && (r.Ok? <==> dwt(previous.shape.h, previous.shape.w) == (raw.shape.h, raw.shape.w))
      && (r.Ok? ==> r.value == Tensor(raw.shape, Conv(FuseW[j].layer, Cat([raw.expr,
            Wavelet(CH, previous.expr), Wavelet(CV, previous.expr), Wavelet(CD, previous.expr)]))))
  {
    var bands := seq(3, b requires 0 <= b < 3 => WaveletBand(dwt, DetailBands[b], previous));
    var parts := [raw] + bands;
    assert parts[1] == WaveletBand(dwt, CH, previous);
    ChannelSumOfOnes(parts);
    assert Exprs(parts) == [raw.expr, Wavelet(CH, previous.expr), Wavelet(CV, previous.expr), Wavelet(CD, previous.expr)];
  }

  /** Side output `i + 1` at its stage's resolution, with its reference term. */
  predicate SideAt(x: Shape, fused: bool, t: Tensor, i: nat)
    requires i < 5
  {
    t == Tensor(Shape(x.n, 1, Halve(x.h, i), Halve(x.w, i)), SideRef(i, fused))
  }

  /** The next side output after `k - 1` correct ones: always there without wavelet input, and with it exactly when the previous output's bands line up. */
  lemma SidesStep(dwt: (nat, nat) -> (nat, nat), fused: bool, x: Shape, feats: seq<Tensor>, k: nat, prev: seq<Tensor>)
    requires EncoderOutputs(x, feats) && 2 <= k <= 5
    requires Sides(dwt, fused, feats, k - 1) == Ok(prev)
    requires forall i :: 0 <= i < k - 1 ==> SideAt(x, fused, prev[i], i)
    ensures var r := Sides(dwt, fused, feats, k);
      && (r.Ok? <==> (fused ==> WaveletAligned(dwt, x.h, x.w, k - 1)))
      && (r.Ok? ==> r.value == prev + [r.value[k - 1]] && SideAt(x, fused, r.value[k - 1], k - 1))
  {
    HeadsFit(k - 1);
    assert feats[k - 1] == Tensor(Shape(x.n, Encoder[k - 1].outC, Halve(x.h, k - 1), Halve(x.w, k - 1)), FeatureRef(k - 1));
    var raw := ApplyConv(Dsn[k - 1], feats[k - 1]).value;
    if fused {
      assert SideAt(x, fused, prev[k - 2], k - 2);
      FuseStepSpec(dwt, k - 2, raw, prev[k - 2]);
    }
  }

  lemma AlignedUpTo(dwt: (nat, nat) -> (nat, nat), x: Shape, k: nat)
    requires 1 <= k
    ensures (forall i :: 1 <= i < k ==> WaveletAligned(dwt, x.h, x.w, i))
      <==> (forall i :: 1 <= i < k - 1 ==> WaveletAligned(dwt, x.h, x.w, i)) && (k > 1 ==> WaveletAligned(dwt, x.h, x.w, k - 1))
  {
  }

  /**
   * The side outputs match their reference terms, all single-channel at their stage's
   * resolution. Without wavelet input they always succeed; with it they succeed exactly
   * when each transform's bands come out at the size of the next scale.
   */
  lemma {:induction false} SidesSpec(dwt: (nat, nat) -> (nat, nat), fused: bool, x: Shape, feats: seq<Tensor>, k: nat)
    requires EncoderOutputs(x, feats) && 1 <= k <= 5
    ensures var r := Sides(dwt, fused, feats, k);
      && (r.Ok? <==> (fused ==> forall i :: 1 <= i < k ==> WaveletAligned(dwt, x.h, x.w, i)))
      && (r.Ok? ==> forall i :: 0 <= i < k ==>
            r.value[i] == Tensor(Shape(x.n, 1, Halve(x.h, i), Halve(x.w, i)), SideRef(i, fused)))
  {
    HeadsFit(0);
    if k > 1 {
      SidesSpec(dwt, fused, x, feats, k - 1);
      var prev := Sides(dwt, fused, feats, k - 1);
      if prev.Ok? {
        assert forall i :: 0 <= i < k - 1 ==> SideAt(x, fused, prev.value[i], i);
        SidesStep(dwt, fused, x, feats, k, prev.value);
      }
      AlignedUpTo(dwt, x, k);
    }
  }

  /** The five aligned side outputs concatenate to the five channels the fusion head expects, and all six maps come out single-channel. */
  lemma FuseSpec(x: Shape, fused: bool, aligned: seq<Tensor>)
    requires |aligned| == 5
    requires forall i :: 0 <= i < 5 ==> aligned[i] == Tensor(Shape(x.n, 1, x.h, x.w), AlignedRef(i, fused, x.h, x.w))
    ensures CatTensors(aligned).Ok? && CatTensors(aligned).value.shape.c == FuseHead.inC
    ensures var r := Fuse(aligned);
      && r.Ok?
      && (forall i :: 0 <= i < 6 ==> r.value[i].shape == Shape(x.n, 1, x.h, x.w))
      && (forall i :: 0 <= i < 5 ==> r.value[i].expr == Sigmoid(AlignedRef(i, fused, x.h, x.w)))
      && r.value[5].expr == Sigmoid(FusedRef(fused, x.h, x.w))
  {
    ChannelSumOfOnes(aligned);
    assert Exprs(aligned) == AlignedRefs(fused, x.h, x.w);
  }

  /** Sides at their stage resolutions, with their reference terms, for an input of shape `x`. */
  predicate SidesAtScale(x: Shape, fused: bool, sides: seq<Tensor>) {
    |sides| == 5 &&
    forall i :: 0 <= i < 5 ==> sides[i] == Tensor(Shape(x.n, 1, Halve(x.h, i), Halve(x.w, i)), SideRef(i, fused))
  }

  /** On an input side of at least 16, every stage has at least one row (or column). */
  lemma StagesNonEmpty(h: nat)
    requires h >= 16
    ensures forall i :: 0 <= i < 5 ==> Halve(h, i) >= 1
  {
    PoolThreshold(h);
    assert Halve(h, 4) == Halve(h, 3) / 2;
  }

  /** Upsampling stage `i + 1`'s side by its stride and kernel gives back at least the input side. */
  lemma UpsampleGrows(h: nat, i: nat)
    requires 1 <= i < 5
    ensures (Halve(h, i) - 1) * Strides[i - 1] + Kernels[i - 1] > h
  {
    UpsampleCovers(h, i);
    var s := Strides[i - 1];
    assert (Halve(h, i) - 1) * s + 2 * s == (Halve(h, i) + 1) * s;
  }

  /** An upsampled side output `i + 1`: single-channel, at least as large as the input `x`, with its reference term. */
  predicate Covers(x: Shape, fused: bool, t: Tensor, i: nat)
    requires i < 5
  {
    t.shape.n == x.n && t.shape.c == 1 && t.shape.h >= x.h && t.shape.w >= x.w && t.expr == UpsampledRef(i, fused)
  }

  /** Side output `i + 1` at its stage's resolution upsamples (or, the first, stays) to a map covering the input. */
  lemma UpsampleOne(x: Shape, fused: bool, sides: seq<Tensor>, i: nat)
    requires x.h >= 16 && x.w >= 16 && SidesAtScale(x, fused, sides) && i < 5
    ensures NonEmpty(sides[i])
    ensures var r := if i == 0 then Ok(sides[0]) else ConvTranspose(sides[i], Strides[i - 1], Kernels[i - 1]);
      r.Ok? && Covers(x, fused, r.value, i)
  {
    StagesNonEmpty(x.h);
    StagesNonEmpty(x.w);
    assert sides[i] == Tensor(Shape(x.n, 1, Halve(x.h, i), Halve(x.w, i)), SideRef(i, fused));
    if i > 0 {
      UpsampleGrows(x.h, i);
      UpsampleGrows(x.w, i);
    }
  }

  /** On an input of at least 16 x 16, every side output at its stage's resolution upsamples to a single-channel map at least as large as the input. */
  lemma {:induction false} UpsampledSpec(x: Shape, fused: bool, sides: seq<Tensor>, k: nat)
    requires x.h >= 16 && x.w >= 16 && k <= 5 && SidesAtScale(x, fused, sides)
    ensures forall i :: 0 <= i < 5 ==> NonEmpty(sides[i])
    ensures var r := Upsampled(sides, k);
      r.Ok? && forall i :: 0 <= i < k ==> Covers(x, fused, r.value[i], i)
  {
    StagesNonEmpty(x.h);
    StagesNonEmpty(x.w);
    if k > 0 {
      UpsampledSpec(x, fused, sides, k - 1);
      UpsampleOne(x, fused, sides, k - 1);
      var prev := Upsampled(sides, k - 1).value;
      var next := if k == 1 then Ok(sides[0]) else ConvTranspose(sides[k - 1], Strides[k - 2], Kernels[k - 2]);
      assert Upsampled(sides, k) == Ok(prev + [next.value]);
    }
  }

  /** On side outputs at their stage resolutions, upsampling and cropping yield the aligned reference terms at the input size. */
  lemma AlignedSpec(x: Shape, fused: bool, sides: seq<Tensor>)
    requires x.h >= 16 && x.w >= 16 && SidesAtScale(x, fused, sides)
    ensures forall i :: 0 <= i < 5 ==> NonEmpty(sides[i])
    ensures Upsampled(sides, 5).Ok? && Cropped(Upsampled(sides, 5).value, x.h, x.w).Ok?
    ensures var cropped := Cropped(Upsampled(sides, 5).value, x.h, x.w).value;
      |cropped| == 5 && forall i :: 0 <= i < 5 ==> cropped[i] == Tensor(Shape(x.n, 1, x.h, x.w), AlignedRef(i, fused, x.h, x.w))
  {
    UpsampledSpec(x, fused, sides, 5);
  }

  /** On side outputs at their stage resolutions, the head always succeeds and yields the reference terms at the input size. */
  lemma HeadSpec(x: Shape, fused: bool, sides: seq<Tensor>)
    requires x.h >= 16 && x.w >= 16 && SidesAtScale(x, fused, sides)
    ensures forall i :: 0 <= i < 5 ==> NonEmpty(sides[i])
    ensures var r := Head(sides, x.h, x.w);
      && r.Ok?
      && (forall i :: 0 <= i < 6 ==> r.value[i].shape == Shape(x.n, 1, x.h, x.w))
      && (forall i :: 0 <= i < 5 ==> r.value[i].expr == Sigmoid(AlignedRef(i, fused, x.h, x.w)))
      && r.value[5].expr == Sigmoid(FusedRef(fused, x.h, x.w))
  {
    AlignedSpec(x, fused, sides);
    var cropped := Cropped(Upsampled(sides, 5).value, x.h, x.w).value;
    FuseSpec(x, fused, cropped);
    assert Head(sides, x.h, x.w) == Fuse(cropped);
  }

  /**
   * `forward` returns six single-channel maps at the input size: the five aligned side
   * outputs through the sigmoid, then the fusion of all five. It succeeds exactly on a
   * 3-channel input of at least 16 x 16 whose wavelet bands, when `w` is given, line up
   * with the next scale; a wrong channel count is reported by the first stage.
   */
  lemma ForwardSpec<W>(x: Shape, w: Option<W>, dwt: (nat, nat) -> (nat, nat))
    requires x.h >= 1 && x.w >= 1
    ensures var r := Forward(x, w, dwt);
      && (r.Ok? <==> (x.c == InputChannels && x.h >= 16 && x.w >= 16 &&
                     (w.Some? ==> forall i :: 1 <= i < 5 ==> WaveletAligned(dwt, x.h, x.w, i))))
      && (r.Ok? ==> forall i :: 0 <= i < 6 ==> r.value[i].shape == Shape(x.n, 1, x.h, x.w))
      && (r.Ok? ==> forall i :: 0 <= i < 5 ==> r.value[i].expr == Sigmoid(AlignedRef(i, w.Some?, x.h, x.w)))
      && (r.Ok? ==> (r.value[5].expr ==
                     Sigmoid(FusedRef(w.Some?, x.h, x.w))))
      && (x.c != InputChannels ==> r == Err(ChannelMismatch(Encoder[0].layer, InputChannels, x.c)))
      && (x.c == InputChannels && (x.h < 16 || x.w < 16) ==> r.Err? && r.error.OutputTooSmall?)
  {
    FeaturesSpec(x, 5);
    PoolThreshold(x.h);
    PoolThreshold(x.w);
    var feats := Features(Tensor(x, Image), 5);
    assert feats.Ok? <==> x.c == InputChannels && x.h >= 16 && x.w >= 16;
    if feats.Ok? {
      SidesSpec(dwt, w.Some?, x, feats.value, 5);
      var sides := Sides(dwt, w.Some?, feats.value, 5);
      if sides.Ok? {
        assert SidesAtScale(x, w.Some?, sides.value);
        HeadSpec(x, w.Some?, sides.value);
      }
    }
  }

  // ---------------------------------------------------------------- provenance

  /** The encoder stages feeding stage `i + 1`. */
  function EncoderLayers(i: nat): set<string>
    requires i < 5
  {
    set j | 0 <= j <= i :: Encoder[j].layer
  }

  /**
   * The layers behind side output `i + 1`: its encoder stages and head, and with wavelet
   * input also every earlier head and the fusion layers of scales 2 to `i + 1`.
   */
  function SideLayers(i: nat, fused: bool): set<string>
    requires i < 5
  {
    if fused then EncoderLayers(i) + (set j | 0 <= j <= i :: Dsn[j].layer) + (set j | 0 <= j < i :: FuseW[j].layer)
    else EncoderLayers(i) + {Dsn[i].layer}
  }

  lemma {:induction false} FeatureMentions(i: nat, layer: string)
    requires i < 5
    ensures Mentions(FeatureRef(i), layer) <==> layer in EncoderLayers(i)
  {
    if i > 0 {
      FeatureMentions(i - 1, layer);
      assert EncoderLayers(i) == EncoderLayers(i - 1) + {Encoder[i].layer};
    }
  }

  lemma MentionsCat(parts: seq<Expr>, layer: string)
    ensures Mentions(Cat(parts), layer) <==> exists k :: 0 <= k < |parts| && Mentions(parts[k], layer)
  {
  }

  /** The four inputs of a fusion layer: a side output and three detail bands of `previous`. */
  predicate FusionInputs(parts: seq<Expr>, previous: Expr) {
    |parts| == 4 && parts[1] == Wavelet(CH, previous) && parts[2] == Wavelet(CV, previous) && parts[3] == Wavelet(CD, previous)
  }

  /** A fusion layer's concatenated input mentions what its side output or the previous fused output mentions. */
  lemma FusionCatMentions(parts: seq<Expr>, previous: Expr, layer: string)
    requires FusionInputs(parts, previous)
    ensures Mentions(Cat(parts), layer) <==> Mentions(parts[0], layer) || Mentions(previous, layer)
  {
    MentionsCat(parts, layer);
    assert Mentions(parts[1], layer) == Mentions(parts[2], layer) == Mentions(parts[3], layer) == Mentions(previous, layer);
    if Mentions(previous, layer) {
      assert Mentions(parts[1], layer);
    }
  }

  /** A fused side output mentions its fusion layer, its own head, and whatever the previous fused output mentions. */
  lemma FusedMentionsStep(i: nat, layer: string)
    requires 1 <= i < 5
    ensures Mentions(SideRef(i, true), layer)
      <==> layer == FuseW[i - 1].layer || Mentions(DsnRef(i), layer) || Mentions(SideRef(i - 1, true), layer)
  {
    var previous := SideRef(i - 1, true);
    var parts := [DsnRef(i), Wavelet(CH, previous), Wavelet(CV, previous), Wavelet(CD, previous)];
    assert SideRef(i, true) == Conv(FuseW[i - 1].layer, Cat(parts));
    FusionCatMentions(parts, previous, layer);
  }

  lemma FusedLayersStep(i: nat)
    requires 1 <= i < 5
    ensures SideLayers(i, true) == SideLayers(i - 1, true) + {Encoder[i].layer, Dsn[i].layer, FuseW[i - 1].layer}
  {
    assert EncoderLayers(i) == EncoderLayers(i - 1) + {Encoder[i].layer};
    assert (set j | 0 <= j <= i :: Dsn[j].layer) == (set j | 0 <= j <= i - 1 :: Dsn[j].layer) + {Dsn[i].layer};
    assert (set j | 0 <= j < i :: FuseW[j].layer) == (set j | 0 <= j < i - 1 :: FuseW[j].layer) + {FuseW[i - 1].layer};
  }

  /** A plain side output mentions its head and the encoder stages feeding it. */
  lemma DsnMentions(i: nat, layer: string)
    requires i < 5
    ensures Mentions(DsnRef(i), layer) <==> layer == Dsn[i].layer || layer in EncoderLayers(i)
  {
    FeatureMentions(i, layer);
  }

  lemma EncoderMember(i: nat, layer: string)
    requires 1 <= i < 5
    ensures layer in EncoderLayers(i) <==> layer in EncoderLayers(i - 1) || layer == Encoder[i].layer
  {
    assert EncoderLayers(i) == EncoderLayers(i - 1) + {Encoder[i].layer};
  }

  lemma FusedLayersMember(i: nat, layer: string)
    requires 1 <= i < 5
    ensures layer in SideLayers(i, true)
      <==> layer in SideLayers(i - 1, true) || layer == Encoder[i].layer || layer == Dsn[i].layer || layer == FuseW[i - 1].layer
    ensures layer in EncoderLayers(i - 1) ==> layer in SideLayers(i - 1, true)
  {
    FusedLayersStep(i);
  }

  /** With wavelet input, side output `i + 1` was computed by exactly the layers `SideLayers(i, true)`. */
  lemma {:induction false} FusedSideMentions(i: nat, layer: string)
    requires i < 5
    ensures Mentions(SideRef(i, true), layer) <==> layer in SideLayers(i, true)
  {
    DsnMentions(i, layer);
    if i == 0 {
      assert SideLayers(0, true) == EncoderLayers(0) + {Dsn[0].layer};
    } else {
      FusedSideMentions(i - 1, layer);
      FusedMentionsStep(i, layer);
      FusedLayersMember(i, layer);
      EncoderMember(i, layer);
    }
  }

  /** Side output `i + 1` was computed by exactly the layers `SideLayers(i, fused)`. */
  lemma SideMentions(i: nat, fused: bool, layer: string)
    requires i < 5
    ensures Mentions(SideRef(i, fused), layer) <==> layer in SideLayers(i, fused)
  {
    if fused {
      FusedSideMentions(i, layer);
    } else {
      DsnMentions(i, layer);
    }
  }

  lemma UsesBandCat(parts: seq<Expr>, band: Band)
    ensures UsesBand(Cat(parts), band) <==> exists k :: 0 <= k < |parts| && UsesBand(parts[k], band)
  {
  }

  lemma {:induction false} FeatureBands(i: nat, band: Band)
    requires i < 5
    ensures !UsesBand(FeatureRef(i), band)
  {
    if i > 0 {
      FeatureBands(i - 1, band);
    }
  }

  /** A fusion layer's concatenated input reads the detail bands, and what its side output or the previous fused output reads. */
  lemma FusionCatBands(parts: seq<Expr>, previous: Expr, band: Band)
    requires FusionInputs(parts, previous)
    ensures UsesBand(Cat(parts), band) <==> band in DetailBands || UsesBand(parts[0], band) || UsesBand(previous, band)
  {
    UsesBandCat(parts, band);
    assert UsesBand(parts[1], band) <==> band == CH || UsesBand(previous, band);
    assert UsesBand(parts[2], band) <==> band == CV || UsesBand(previous, band);
    assert UsesBand(parts[3], band) <==> band == CD || UsesBand(previous, band);
    if band in DetailBands || UsesBand(previous, band) {
      var k := if band == CV then 2 else if band == CD then 3 else 1;
      assert UsesBand(parts[k], band);
    }
  }

  /** A fused side output reads the three detail bands of the previous fused output, and nothing else of any transform. */
  lemma FusedBandsStep(i: nat, band: Band)
    requires 1 <= i < 5
    ensures UsesBand(SideRef(i, true), band)
      <==> band in DetailBands || UsesBand(DsnRef(i), band) || UsesBand(SideRef(i - 1, true), band)
  {
    var previous := SideRef(i - 1, true);
    var parts := [DsnRef(i), Wavelet(CH, previous), Wavelet(CV, previous), Wavelet(CD, previous)];
    assert SideRef(i, true) == Conv(FuseW[i - 1].layer, Cat(parts));
    FusionCatBands(parts, previous, band);
  }

  /**
   * The cascade reads only the detail bands: no side output depends on an approximation
   * band, and a side output depends on the detail bands exactly when it is fused.
   */
  lemma {:induction false} SideBands(i: nat, fused: bool, band: Band)
    requires i < 5
    ensures UsesBand(SideRef(i, fused), band) <==> band != CA && fused && i >= 1
  {
    FeatureBands(i, band);
    if i > 0 && fused {
      SideBands(i - 1, true, band);
      FusedBandsStep(i, band);
    }
  }

  /** With wavelet input, every fused side output contains the whole fused output before it. */
  lemma CascadeFeedsForward(i: nat)
    requires 1 <= i < 5
    ensures SubTerm(SideRef(i - 1, true), SideRef(i, true))
  {
    var previous := SideRef(i - 1, true);
    var parts := [DsnRef(i), Wavelet(CH, previous), Wavelet(CV, previous), Wavelet(CD, previous)];
    assert SideRef(i, true) == Conv(FuseW[i - 1].layer, Cat(parts));
    assert SubTerm(previous, parts[1]);
  }

  /** `layer` is behind output `i` of `forward`: a side output's own layers, or for the fused map the fusion head and any side output's layers. */
  predicate BehindOutput(i: nat, fused: bool, layer: string)
    requires i < 6
  {
    if i < 5 then layer in SideLayers(i, fused)
    else layer == FuseHead.layer || exists k :: 0 <= k < 5 && layer in SideLayers(k, fused)
  }

  lemma MentionsWrappers(a: Expr, layer: string, band: Band, height: nat, width: nat, stride: nat, kernel: nat)
    ensures Mentions(Crop(height, width, a), layer) == Mentions(Upsample(stride, kernel, a), layer) == Mentions(Sigmoid(a), layer) == Mentions(a, layer)
    ensures UsesBand(Crop(height, width, a), band) == UsesBand(Upsample(stride, kernel, a), band) == UsesBand(Sigmoid(a), band) == UsesBand(a, band)
  {
  }

  /** Upsampling and cropping add no layer and no band. */
  lemma AlignedProvenance(k: nat, fused: bool, height: nat, width: nat, layer: string, band: Band)
    requires k < 5
    ensures Mentions(AlignedRef(k, fused, height, width), layer) <==> layer in SideLayers(k, fused)
    ensures UsesBand(AlignedRef(k, fused, height, width), band) <==> band != CA && fused && k >= 1
  {
    SideMentions(k, fused, layer);
    SideBands(k, fused, band);
    MentionsWrappers(SideRef(k, fused), layer, band, height, width, if k == 0 then 0 else Strides[k - 1], if k == 0 then 0 else Kernels[k - 1]);
    MentionsWrappers(UpsampledRef(k, fused), layer, band, height, width, 0, 0);
  }

  /** The term of the fused map, before the sigmoid. */
  function FusedRef(fused: bool, height: nat, width: nat): Expr {
    Conv(FuseHead.layer, Cat(AlignedRefs(fused, height, width)))
  }

  /** The fused map reads the fusion head and every layer behind any side output. */
  lemma FusedOutputMentions(fused: bool, height: nat, width: nat, layer: string)
    ensures Mentions(FusedRef(fused, height, width), layer) <==> BehindOutput(5, fused, layer)
  {
    var parts := AlignedRefs(fused, height, width);
    MentionsWrappers(FusedRef(fused, height, width), layer, CA, 0, 0, 0, 0);
    assert Mentions(FusedRef(fused, height, width), layer) <==> layer == FuseHead.layer || Mentions(Cat(parts), layer);
    MentionsCat(parts, layer);
    forall k | 0 <= k < 5
      ensures Mentions(parts[k], layer) <==> layer in SideLayers(k, fused)
    {
      AlignedProvenance(k, fused, height, width, layer, CA);
    }
  }

  /** The fused map reads the detail bands exactly when the side outputs were fused, and never an approximation band. */
  lemma FusedOutputBands(fused: bool, height: nat, width: nat, band: Band)
    ensures UsesBand(FusedRef(fused, height, width), band) <==> band != CA && fused
  {
    var parts := AlignedRefs(fused, height, width);
    assert UsesBand(FusedRef(fused, height, width), band) <==> UsesBand(Cat(parts), band);
    UsesBandCat(parts, band);
    forall k | 0 <= k < 5
      ensures UsesBand(parts[k], band) <==> band != CA && fused && k >= 1
    {
      AlignedProvenance(k, fused, height, width, "", band);
    }
    assert UsesBand(parts[1], band) <==> band != CA && fused;
  }

  /** The layers and bands behind each output of a successful forward pass. */
  lemma OutputProvenance<W>(x: Shape, w: Option<W>, dwt: (nat, nat) -> (nat, nat), i: nat, layer: string, band: Band)
    requires x.h >= 1 && x.w >= 1 && i < 6 && Forward(x, w, dwt).Ok?
    ensures Mentions(Forward(x, w, dwt).value[i].expr, layer) <==> BehindOutput(i, w.Some?, layer)
    ensures UsesBand(Forward(x, w, dwt).value[i].expr, band) <==> band != CA && w.Some? && i >= 1
  {
    ForwardSpec(x, w, dwt);
    if i < 5 {
      AlignedProvenance(i, w.Some?, x.h, x.w, layer, band);
      MentionsWrappers(AlignedRef(i, w.Some?, x.h, x.w), layer, band, 0, 0, 0, 0);
    } else {
      MentionsWrappers(FusedRef(w.Some?, x.h, x.w), layer, band, 0, 0, 0, 0);
      FusedOutputMentions(w.Some?, x.h, x.w, layer);
      FusedOutputBands(w.Some?, x.h, x.w, band);
    }
  }

  // ---------------------------------------------------------------- the two branches

  /** No two layers share a name. */
  lemma LayerNamesDistinct()
    ensures forall i, j :: 0 <= i < 5 && 0 <= j < 4 ==> FuseW[j].layer != Encoder[i].layer && FuseW[j].layer != Dsn[i].layer
    ensures forall i, j :: 0 <= i < 5 && 0 <= j < 5 ==> Dsn[j].layer != Encoder[i].layer
    ensures forall i, j :: 0 <= i < j < 5 ==> Dsn[i].layer != Dsn[j].layer
    ensures forall i, j :: 0 <= i < j < 4 ==> FuseW[i].layer != FuseW[j].layer
  {
  }

  /** The registered layer names are those the heads and fusion layers declare, in the same order. */
  lemma LayerListsMatch()
    ensures |HeadLayers| == |Dsn| + 1 && |FuseWLayers| == |FuseW|
    ensures forall i :: 0 <= i < |Dsn| ==> HeadLayers[i] == Dsn[i].layer
    ensures HeadLayers[|Dsn|] == FuseHead.layer
    ensures forall j :: 0 <= j < |FuseW| ==> FuseWLayers[j] == FuseW[j].layer
  {
  }

  /** A head is behind side output `i + 1` when it is that output's own head or, with wavelet input, an earlier one. */
  lemma DsnBehindSide(i: nat, j: nat, fused: bool)
    requires i < 5 && j < 5
    ensures Dsn[j].layer in SideLayers(i, fused) <==> j == i || (fused && j < i)
  {
    LayerNamesDistinct();
    assert Dsn[j].layer !in EncoderLayers(i);
    if fused && j <= i {
      assert Dsn[j].layer in (set k | 0 <= k <= i :: Dsn[k].layer);
    }
  }

  /** The fusion layer of scale `j + 2` is behind side output `i + 1` exactly when the outputs are fused and `j < i`. */
  lemma FuseWBehindSide(i: nat, j: nat, fused: bool)
    requires i < 5 && j < 4
    ensures FuseW[j].layer in SideLayers(i, fused) <==> fused && j < i
  {
    LayerNamesDistinct();
    assert FuseW[j].layer !in EncoderLayers(i);
    if fused && j < i {
      assert FuseW[j].layer in (set k | 0 <= k < i :: FuseW[k].layer);
    }
  }

  /** Without wavelet input, no output of `forward` involves any `fusew_*` layer. */
  lemma PlainBranchBypassesFusion<W>(x: Shape, dwt: (nat, nat) -> (nat, nat))
    requires x.h >= 1 && x.w >= 1
    ensures var r := Forward<W>(x, None, dwt);
      r.Ok? ==> forall i, j :: 0 <= i < 6 && 0 <= j < 4 ==> !Mentions(r.value[i].expr, FuseW[j].layer)
  {
    var r := Forward<W>(x, None, dwt);
    if r.Ok? {
      forall i, j | 0 <= i < 6 && 0 <= j < 4
        ensures !Mentions(r.value[i].expr, FuseW[j].layer)
      {
        PlainOutputAvoids<W>(x, dwt, i, j);
      }
    }
  }

  lemma PlainOutputAvoids<W>(x: Shape, dwt: (nat, nat) -> (nat, nat), i: nat, j: nat)
    requires x.h >= 1 && x.w >= 1 && i < 6 && j < 4
    ensures var r := Forward<W>(x, None, dwt);
      r.Ok? ==> !Mentions(r.value[i].expr, FuseW[j].layer)
  {
    if Forward<W>(x, None, dwt).Ok? {
      OutputProvenance<W>(x, None, dwt, i, FuseW[j].layer, CA);
      FuseWNotBehindPlain(i, j);
    }
  }

  lemma FuseWNotBehindPlain(i: nat, j: nat)
    requires i < 6 && j < 4
    ensures !BehindOutput(i, false, FuseW[j].layer)
  {
    forall k | 0 <= k < 5
      ensures FuseW[j].layer !in SideLayers(k, false)
    {
      FuseWBehindSide(k, j, false);
    }
    assert FuseW[j].layer != FuseHead.layer;
  }

  /**
   * With wavelet input, so1 stays unfused while so2 to so5 each go through their own
   * fusion layer; so_i involves the head of every scale up to i and of no later one.
   */
  lemma WaveletBranchCascade<W>(x: Shape, a: W, dwt: (nat, nat) -> (nat, nat))
    requires x.h >= 1 && x.w >= 1
    ensures var r := Forward(x, Some(a), dwt);
      r.Ok? ==>
        && (forall j :: 0 <= j < 4 ==> !Mentions(r.value[0].expr, FuseW[j].layer))
        && (forall i :: 1 <= i < 5 ==> Mentions(r.value[i].expr, FuseW[i - 1].layer))
        && (forall i, j :: 0 <= i < 5 && 0 <= j < 5 ==> (Mentions(r.value[i].expr, Dsn[j].layer) <==> j <= i))
  {
    var r := Forward(x, Some(a), dwt);
    if r.Ok? {
      forall j | 0 <= j < 4
        ensures !Mentions(r.value[0].expr, FuseW[j].layer)
      {
        OutputProvenance(x, Some(a), dwt, 0, FuseW[j].layer, CA);
        FuseWBehindSide(0, j, true);
      }
      forall i | 1 <= i < 5
        ensures Mentions(r.value[i].expr, FuseW[i - 1].layer)
      {
        OutputProvenance(x, Some(a), dwt, i, FuseW[i - 1].layer, CA);
        FuseWBehindSide(i, i - 1, true);
      }
      forall i, j | 0 <= i < 5 && 0 <= j < 5
        ensures Mentions(r.value[i].expr, Dsn[j].layer) <==> j <= i
      {
        OutputProvenance(x, Some(a), dwt, i, Dsn[j].layer, CA);
        DsnBehindSide(i, j, true);
      }
    }
  }

  /** No output of `forward` depends on an approximation band, in either branch. */
  lemma ApproximationBandUnused<W>(x: Shape, w: Option<W>, dwt: (nat, nat) -> (nat, nat))
    requires x.h >= 1 && x.w >= 1
    ensures var r := Forward(x, w, dwt);
      r.Ok? ==> forall i :: 0 <= i < 6 ==> !UsesBand(r.value[i].expr, CA)
  {
    var r := Forward(x, w, dwt);
    if r.Ok? {
      forall i | 0 <= i < 6
        ensures !UsesBand(r.value[i].expr, CA)
      {
        OutputProvenance(x, w, dwt, i, "", CA);
      }
    }
  }

  /** `forward` reads `w` only to choose the branch: any two wavelet inputs give the same result. */
  lemma WaveletInputContentsIgnored<W>(x: Shape, a: W, b: W, dwt: (nat, nat) -> (nat, nat))
    requires x.h >= 1 && x.w >= 1
    ensures Forward(x, Some(a), dwt) == Forward(x, Some(b), dwt)
  {
  }
}
