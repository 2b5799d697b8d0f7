/** Values shared by the blob-to-beacon pipeline of the video-based tracker. */
module Types {

  datatype Option<+T> = None | Some(value: T)

  datatype Result<+T> = Ok(value: T) | Error

  /** An 8-bit unsigned counter; its type is what an uninitialised byte may hold. */
  type uint8 = n: int | 0 <= n < 256

  datatype Point2 = Point2(x: real, y: real)

  /** One blob: its undistorted image location, its brightness and its diameter. */
  datatype LedMeasurement = LedMeasurement(loc: Point2, brightness: real, diameter: real)

  function DistSquared(p: Point2, q: Point2): real {
    (p.x - q.x) * (p.x - q.x) + (p.y - q.y) * (p.y - q.y)
  }

  /** The last n elements of s, or all of them when there are fewer. */
  function LastN<T>(s: seq<T>, n: nat): (r: seq<T>)
    ensures |r| == if |s| > n then n else |s|
  {
    if |s| > n then s[|s| - n..] else s
  }

  function Remove<T>(s: seq<T>, k: nat): (r: seq<T>)
    requires k < |s|
    ensures |r| == |s| - 1
  {
    s[..k] + s[k + 1..]
  }

  function Filter<T>(s: seq<T>, keep: T -> bool): (r: seq<T>)
  {
    if s == [] then [] else (if keep(s[0]) then [s[0]] else []) + Filter(s[1..], keep)
  }
}
