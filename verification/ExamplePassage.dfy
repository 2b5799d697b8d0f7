/** A beacon that comes into view in the second frame, while another light comes and goes. */
module ExamplePassage {
  import opened Types
  import opened Rotations
  import opened LedIdentifier
  import opened LedModel
  import opened Matching
  import opened SensorModel
  import opened SensorRun
  import opened Blinking
  import opened PassingLight

  const CODE := "*."

  /** A place out of the reach of a blob at the origin. */
  function Far(params: Params): real {
    if params.blobMoveThreshold >= 0.0 then params.blobMoveThreshold + 1.0 else 1.0 - params.blobMoveThreshold
  }

  function Visitor(params: Params): LedMeasurement {
    LedMeasurement(Point2(Far(params), 0.0), 5.0, 1.0)
  }

  function Home(f: nat): LedMeasurement {
    LedMeasurement(Point2(0.0, 0.0), if f % 2 == 1 then 1.0 else 0.0, 1.0)
  }

  /** The visitor is in every other frame; the beacon is in all but the first. */
  function BlobsOf(params: Params, f: nat): seq<LedMeasurement> {
    if f == 0 then [Visitor(params)] else if f % 2 == 1 then [Home(f)] else [Visitor(params), Home(f)]
  }

  function Frames(params: Params, n: nat, input: FrameInput): (frames: seq<Frame>)
    ensures |frames| == n && forall f :: 0 <= f < n ==> frames[f] == Frame(BlobsOf(params, f), input)
  {
    seq(n, f requires 0 <= f < n => Frame(BlobsOf(params, f), input))
  }

  function Places(n: nat): (at: seq<nat>)
    ensures |at| == n && forall j :: 0 <= j < n ==> at[j] == j % 2
  {
    seq(n, j => j % 2)
  }

  lemma OutOfReach(params: Params, f: nat)
    ensures !InReach(params, Visitor(params), Home(f))
    ensures InReach(params, Home(f), Home(f + 1)) && Nearer(Home(f), Home(f + 1), Visitor(params))
  {
    var far, t := Far(params), params.blobMoveThreshold;
    Squares(t, far);
    assert DistSquared(Visitor(params).loc, Home(f).loc) == far * far;
    assert MoveThreshold(params, Visitor(params)) == t && MoveThreshold(params, Home(f)) == t;
  }

  lemma Squares(t: real, far: real)
    requires far == if t >= 0.0 then t + 1.0 else 1.0 - t
    ensures t * t >= 0.0 && far * far > t * t
  {
    if t >= 0.0 {
      assert far * far == t * t + 2.0 * t + 1.0;
    } else {
      assert far * far == t * t - 2.0 * t + 1.0;
    }
  }

  lemma CodeUnmistakable()
    ensures Unmistakable([CODE], 0) && MadeFrom(Identifier(2, [Wrap(CODE)]), [CODE])
  {
    assert CODE[0] == '*' && CODE[1] == '.';
    assert Enabled([CODE][0]);
  }

  lemma HomeFollows(b: seq<real>)
    requires forall j :: 0 <= j < |b| ==> b[j] == if j % 2 == 0 then 1.0 else 0.0
    ensures Follows(Shown(CODE, 0, |b|), b, 2)
  {
    var bright := Shown(CODE, 0, |b|);
    assert forall j :: 0 <= j < |b| ==> bright[j] == (CODE[(0 + j) % 2] == '*');
    StepFollows(bright, b);
  }

  lemma StepFollows(bright: seq<bool>, b: seq<real>)
    requires |bright| == |b| && forall j :: 0 <= j < |b| ==> b[j] == if bright[j] then 1.0 else 0.0
    ensures Follows(bright, b, 2)
  {
  }

  lemma HomeBlob(params: Params, n: nat, input: FrameInput, j: nat)
    requires j < n
    ensures var p, frames := Passage(Beacon(0, 0), 1, Places(n)), Frames(params, n + 1, input);
      InView(p, frames) && BlobAt(p, frames, j) == Home(j + 1)
  {
    var p, frames := Passage(Beacon(0, 0), 1, Places(n)), Frames(params, n + 1, input);
    forall k | 0 <= k < n ensures p.at[k] < |frames[1 + k].blobs| {
    }
  }

  /** Passages of every length meet the conditions, in every configuration. */
  lemma ExampleFits(params: Params, d: Decoder, n: nat, input: FrameInput)
    requires n > 0 && d == Identifier(2, [Wrap(CODE)])
    ensures var p, frames := Passage(Beacon(0, 0), 1, Places(n)), Frames(params, n + 1, input);
      && Fits(d, [CODE], p, frames) && Appears(params, p, frames)
      && forall j :: 0 < j < n ==> Moves(params, p, frames, j)
  {
    var p, frames := Passage(Beacon(0, 0), 1, Places(n)), Frames(params, n + 1, input);
    HomeBlob(params, n, input, 0);
    CodeUnmistakable();
    var b := Course(p, frames);
    forall j | 0 <= j < n ensures b[j] == if j % 2 == 0 then 1.0 else 0.0 {
      HomeBlob(params, n, input, j);
    }
    HomeFollows(b);
    OutOfReach(params, 1);
    forall j | 0 < j < n ensures Moves(params, p, frames, j) {
      HomeMoves(params, n, input, j);
    }
  }

  lemma HomeMoves(params: Params, n: nat, input: FrameInput, j: nat)
    requires 0 < j < n
    ensures var p, frames := Passage(Beacon(0, 0), 1, Places(n)), Frames(params, n + 1, input);
      InView(p, frames) && Moves(params, p, frames, j)
  {
    HomeBlob(params, n, input, j - 1);
    HomeBlob(params, n, input, j);
    OutOfReach(params, j);
    OutOfReach(params, j + 1);
  }
}
