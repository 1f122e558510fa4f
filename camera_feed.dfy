/**
 The camera tile (`components/CameraFeed.tsx`): the height class chosen from
 the focus/expansion props, the video file chosen from the camera id and the
 dashboard's video state, the autoplay rule, and the film-grain overlay
 (the tile buffer fill and its frame throttle).
 */
module CameraFeed {
  import opened Wrappers
  import opened JsNumber

  /** The `heightVariant` prop: the height a card starts at. */
  datatype HeightVariant = Short | Full

  /** The three Tailwind height classes a tile can get. */
  datatype HeightClass = H32 | H48 | H64

  /** The class name `getHeightClass` returns for each height. */
  function Css(h: HeightClass): (css: string)
  {
    match h
    case H32 => "h-32"
    case H48 => "h-48"
    case H64 => "h-64"
  }

  /** `getHeightClass`: a focused tile is tallest; otherwise a tile is short
      exactly when its expansion "flips" its variant's default height. */
  function GetHeightClass(isFocused: bool, isExpanded: bool, heightVariant: HeightVariant): (h: HeightClass)
    ensures h == H64 <==> isFocused
    ensures !isFocused ==> (h == H32 <==> (heightVariant.Full? <==> isExpanded))
    ensures !isFocused ==> (h == H48 <==> (heightVariant.Short? <==> isExpanded))
  {
    if isFocused then H64
    else if isExpanded && heightVariant == Full then H32
    else if heightVariant == Short && !isExpanded then H32
    else H48
  }

  // ---------------------------------------------------------------------
  // Video source and autoplay

  const DayVideos: seq<string> :=
    ["/d-hall.mp4", "/d-hiss.mp4", "/d-kok.mp4", "/d-matsal.mp4", "/d-pool.mp4",
     "/d-sovrum.mp4", "/d-spa.mp4", "/d-ute.mp4", "/d-vardagsrum.mp4"]
  const NightVideos: seq<string> :=
    ["/n5.mp4", "/n4.mp4", "/n7.mp4", "/n3.mp4", "/n1.mp4",
     "/black.mp4", "/n6.mp4", "/n2.mp4", "/n8.mp4"]
  const BlackVideo: string := "/black.mp4"

  /** The list `getVideoSource` picks from: video states 1 and 2 select the
      night recordings, every other state the day recordings. */
  function VideoList(videoState: int): (videos: seq<string>)
    ensures |videos| == 9
    ensures videos == NightVideos <==> videoState == 1 || videoState == 2
    ensures videos == DayVideos <==> !(videoState == 1 || videoState == 2)
  {
    assert DayVideos[0] != NightVideos[0];
    if videoState == 1 || videoState == 2 then NightVideos else DayVideos
  }

  /** `videos[key]`: defined only for an integral key inside the list. */
  function Lookup(videos: seq<string>, key: Parsed): Option<string>
  {
    match key
    case NaN => None
    case Int(k) => if 0 <= k < |videos| then Some(videos[k]) else None
  }

  /** The list element `getVideoSource` returns once the id is parsed:
      `videos[key % videos.length] || videos[0]`. */
  function SourceForKey(key: Parsed, videoState: int): (src: string)
    ensures src in VideoList(videoState)
    ensures key.Int? && key.value >= 0 ==> src == VideoList(videoState)[key.value % 9]
    ensures key.NaN? || key.value < 0 ==> src == VideoList(videoState)[0]
  {
    var videos := VideoList(videoState);
    var index := match key
                 case NaN => NaN
                 case Int(n) => Int(Rem(n, |videos|));
    match Lookup(videos, index)
    case Some(v) => if v != "" then v else videos[0]
    case None => videos[0]
  }

  /** `getVideoSource`: the id goes through `parseInt` first. */
  function GetVideoSource(id: string, videoState: int): (src: string)
    ensures src in VideoList(videoState)
    ensures ParseInt(id).Int? && ParseInt(id).value >= 0 ==>
              src == VideoList(videoState)[ParseInt(id).value % 9]
    ensures ParseInt(id).NaN? || ParseInt(id).value < 0 ==> src == VideoList(videoState)[0]
  {
    SourceForKey(ParseInt(id), videoState)
  }

  /** The black recording is index 5 of the night list and appears nowhere else. */
  lemma BlackVideoSlot(key: Parsed, videoState: int)
    ensures SourceForKey(key, videoState) == BlackVideo <==>
              (videoState == 1 || videoState == 2) && key.Int? && key.value >= 0 && key.value % 9 == 5
  {
  }

  /** The `autoPlay` attribute of the tile's video: off exactly for the black
      recording, that is for night states and ids that parse to 5 modulo 9. */
  function Autoplay(id: string, videoState: int): (autoplay: bool)
    ensures !autoplay <==>
              (videoState == 1 || videoState == 2) && ParseInt(id).Int? &&
              ParseInt(id).value >= 0 && ParseInt(id).value % 9 == 5
  {
    BlackVideoSlot(ParseInt(id), videoState);
    GetVideoSource(id, videoState) != BlackVideo
  }

  // ---------------------------------------------------------------------
  // Film-grain overlay

  /** One entry of an RGBA pixel buffer (`Uint8ClampedArray`). */
  newtype byte = x: int | 0 <= x < 256

  const TileWidth: nat := 320
  const TileHeight: nat := 180
  const TilePixels: nat := TileWidth * TileHeight
  /** The minimum gap, in milliseconds, between two frames that pass the throttle. */
  const FrameInterval: int := 33

  /** A supply of one noise value per tile pixel, each `(Math.random() * 255) | 0`. */
  predicate IsNoise(noise: seq<int>)
  {
    |noise| == TilePixels && forall k :: 0 <= k < |noise| ==> 0 <= noise[k] <= 254
  }

  /** Pixel `p` of an RGBA buffer is the opaque grey of level `level`. */
  ghost predicate PixelIs(data: array<byte>, p: nat, level: byte)
    reads data
    requires 4 * p + 3 < data.Length
  {
    data[4 * p] == level && data[4 * p + 1] == level && data[4 * p + 2] == level && data[4 * p + 3] == 255
  }

  /** The tile fill of `generateGrain`: a fresh, zeroed RGBA buffer of the tile's
      size whose pixel `i` gets grey level `noise[i]` and full opacity. */
  method GenerateGrainTile(noise: seq<int>) returns (data: array<byte>)
    requires IsNoise(noise)
    ensures fresh(data) && data.Length == 4 * TilePixels
    ensures forall p :: 0 <= p < TilePixels ==> PixelIs(data, p, noise[p] as byte)
  {
    data := new byte[4 * TilePixels];
    var i := 0;
    while i < TilePixels
      invariant 0 <= i <= TilePixels
      invariant forall p :: 0 <= p < i ==> PixelIs(data, p, noise[p] as byte)
    {
      var level := noise[i] as byte;
      var offset := 4 * i;
      data[offset] := level;
      data[offset + 1] := level;
      data[offset + 2] := level;
      data[offset + 3] := 255;
      i := i + 1;
    }
  }

  /** The throttle test at the top of `generateGrain`. */
  predicate Throttled(timestamp: int, lastTime: int)
  {
    timestamp - lastTime < FrameInterval
  }

  /** Consecutive drawn frames are at least one frame interval apart. */
  ghost predicate FramesSpaced(frames: seq<int>)
  {
    forall j :: 0 < j < |frames| ==> frames[j - 1] + FrameInterval <= frames[j]
  }

  /** Any two drawn frames are at least one interval apart per frame between them. */
  lemma {:induction false} FramesSpacedApart(frames: seq<int>, i: nat, j: nat)
    requires FramesSpaced(frames) && i < j < |frames|
    ensures frames[i] + FrameInterval * (j - i) <= frames[j]
  {
    if i < j - 1 {
      FramesSpacedApart(frames, i, j - 1);
    }
  }

  /** The animation loop's state: `lastTime`, the timestamp of the last frame
      that passed the throttle. `drawnAt` records the frames that drew a tile. */
  class GrainAnimation {
    var lastTime: int
    ghost var drawnAt: seq<int>

    ghost predicate Valid()
      reads this
    {
      FramesSpaced(drawnAt) && (drawnAt != [] ==> drawnAt[|drawnAt| - 1] <= lastTime)
    }

    constructor ()
      ensures Valid() && lastTime == 0 && drawnAt == []
    {
      lastTime := 0;
      drawnAt := [];
    }

    /** One call of `generateGrain(timestamp)`; the canvas size and the noise
        supply are parameters. Returns the tile drawn, if any. */
    method GenerateGrain(timestamp: int, canvasWidth: nat, canvasHeight: nat, noise: seq<int>)
      returns (tile: Option<array<byte>>)
      requires Valid() && IsNoise(noise)
      modifies this
      ensures Valid()
      ensures lastTime == if Throttled(timestamp, old(lastTime)) then old(lastTime) else timestamp
      ensures tile.Some? <==>
                !Throttled(timestamp, old(lastTime)) && canvasWidth != 0 && canvasHeight != 0
      ensures tile.Some? ==>
                fresh(tile.value) && tile.value.Length == 4 * TilePixels &&
                forall p :: 0 <= p < TilePixels ==> PixelIs(tile.value, p, noise[p] as byte)
      ensures drawnAt == if tile.Some? then old(drawnAt) + [timestamp] else old(drawnAt)
    {
      if timestamp - lastTime < FrameInterval {
        return None;
      }
      lastTime := timestamp;
      if canvasWidth == 0 || canvasHeight == 0 {
        return None;
      }
      var data := GenerateGrainTile(noise);
      drawnAt := drawnAt + [timestamp];
      tile := Some(data);
    }
  }
}
