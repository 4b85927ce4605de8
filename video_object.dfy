/**
 * The scriptable side of pxVideo (pxVideo.cpp): the url and autoPlay properties,
 * the play / pause / stop commands that drive the AAMP playback engine, onInit,
 * and the rotation test on the current transformation matrix.
 *
 * The engine (PlayerInstanceAAMP) is code this model cannot see: each call made
 * to it is recorded, in order, in the `engine` trace. The "ready" promise is a
 * flag that onInit sets.
 */
module VideoObject {
  import opened RtError

  /** A call made to the playback engine. */
  datatype EngineCall = Tune(url: string) | Stop

  /** The engine calls play makes for a given url: a Tune of that url, or none when it is empty. */
  function PlayCalls(url: string): (r: seq<EngineCall>)
    ensures |r| <= 1
    ensures r != [] <==> url != ""
    ensures forall k :: 0 <= k < |r| ==> r[k] == Tune(url)
  {
    if url == "" then [] else [Tune(url)]
  }

  class Video {
    var url: string
    var autoPlay: bool
    var engine: seq<EngineCall>
    var readyResolved: bool

    /** A new video: no url, autoPlay off, no engine call made yet, ready not yet resolved. */
    constructor ()
      ensures url == "" && !autoPlay && engine == [] && !readyResolved
    {
      url := "";
      autoPlay := false;
      engine := [];
      readyResolved := false;
    }

    /** The url getter: RT_OK and the last url set. */
    method Url() returns (err: Error, u: string)
      ensures err == RT_OK && u == url
    {
      err, u := RT_OK, url;
    }

    /** Stores the url as given and changes nothing else. */
    method SetUrl(u: string) returns (err: Error)
      modifies this
      ensures err == RT_OK
      ensures url == u
      ensures autoPlay == old(autoPlay) && engine == old(engine) && readyResolved == old(readyResolved)
    {
      url := u;
      err := RT_OK;
    }

    /** The autoPlay getter: RT_OK and the last value set. */
    method AutoPlay() returns (err: Error, a: bool)
      ensures err == RT_OK && a == autoPlay
    {
      err, a := RT_OK, autoPlay;
    }

    /** Stores the flag as given and changes nothing else. */
    method SetAutoPlay(a: bool) returns (err: Error)
      modifies this
      ensures err == RT_OK
      ensures autoPlay == a
      ensures url == old(url) && engine == old(engine) && readyResolved == old(readyResolved)
    {
      autoPlay := a;
      err := RT_OK;
    }

    /** Tunes the engine to the url when there is one; an empty url is not an error. */
    method Play() returns (err: Error)
      modifies this
      ensures err == RT_OK
      ensures engine == old(engine) + PlayCalls(old(url))
      ensures url == old(url) && autoPlay == old(autoPlay) && readyResolved == old(readyResolved)
    {
      if url != "" {
        engine := engine + [Tune(url)];
      }
      err := RT_OK;
    }

    /** Not implemented in the source: returns RT_OK and does nothing. */
    method Pause() returns (err: Error)
      ensures err == RT_OK
    {
      err := RT_OK;
    }

    /** Always stops the engine, whether or not anything is playing. */
    method Stop() returns (err: Error)
      modifies this
      ensures err == RT_OK
      ensures engine == old(engine) + [EngineCall.Stop]
      ensures url == old(url) && autoPlay == old(autoPlay) && readyResolved == old(readyResolved)
    {
      engine := engine + [EngineCall.Stop];
      err := RT_OK;
    }

    /** Plays when autoPlay is set, then resolves the ready promise. */
    method OnInit()
      modifies this
      ensures engine == old(engine) + (if old(autoPlay) then PlayCalls(old(url)) else [])
      ensures readyResolved
      ensures url == old(url) && autoPlay == old(autoPlay)
    {
      if autoPlay {
        var _ := Play();
      }
      readyResolved := true;
    }
  }

  /**
   * A script's view of the properties: what was set is what is read back, and
   * with autoPlay on and a url set, initialisation tunes the engine to that url
   * exactly once; a later stop follows it.
   */
  method SetPropertiesThenInit(u: string, a: bool) returns (gotUrl: string, gotAutoPlay: bool, calls: seq<EngineCall>)
    ensures gotUrl == u && gotAutoPlay == a
    ensures calls == (if a && u != "" then [Tune(u)] else []) + [EngineCall.Stop]
  {
    var v := new Video();
    var err := v.SetAutoPlay(a);
    err := v.SetUrl(u);
    v.OnInit();
    err := v.Pause();
    err := v.Stop();
    err, gotUrl := v.Url();
    err, gotAutoPlay := v.AutoPlay();
    calls := v.engine;
  }

  /** The entries of a column-major 4x4 matrix that are zero unless it rotates or shears. */
  const RotationEntries: set<nat> := {1, 2, 4, 6, 8, 9}

  /** The tolerance isRotated uses: 1.0e-2. */
  const Epsilon: real := 0.01

  type Matrix4 = f: seq<real> | |f| == 16 witness seq(16, _ => 0.0)

  function Abs(x: real): (r: real)
    ensures r >= 0.0 && (r == x || r == -x)
  {
    if x < 0.0 then -x else x
  }

  /** pxVideo::isRotated: some rotation entry of the matrix is further than Epsilon from 0. */
  function IsRotated(f: Matrix4): (r: bool)
    ensures r <==> exists k :: k in RotationEntries && Abs(f[k]) > Epsilon
  {
    Abs(f[1]) > Epsilon || Abs(f[2]) > Epsilon || Abs(f[4]) > Epsilon ||
    Abs(f[6]) > Epsilon || Abs(f[8]) > Epsilon || Abs(f[9]) > Epsilon
  }

  /** Only the rotation entries are looked at: matrices that agree on them agree on isRotated. */
  lemma IsRotatedReadsOnlyRotationEntries(f: Matrix4, g: Matrix4)
    requires forall k :: k in RotationEntries ==> f[k] == g[k]
    ensures IsRotated(f) == IsRotated(g)
  {
    assert 1 in RotationEntries && 2 in RotationEntries && 4 in RotationEntries;
    assert 6 in RotationEntries && 8 in RotationEntries && 9 in RotationEntries;
  }

  /** A scale-and-translate matrix, the identity among them, is not rotated. */
  function ScaleTranslate(sx: real, sy: real, sz: real, tx: real, ty: real, tz: real): Matrix4
  {
    [sx, 0.0, 0.0, 0.0,
     0.0, sy, 0.0, 0.0,
     0.0, 0.0, sz, 0.0,
     tx, ty, tz, 1.0]
  }

  lemma ScaleTranslateNotRotated(sx: real, sy: real, sz: real, tx: real, ty: real, tz: real)
    ensures !IsRotated(ScaleTranslate(sx, sy, sz, tx, ty, tz))
    ensures !IsRotated(ScaleTranslate(1.0, 1.0, 1.0, 0.0, 0.0, 0.0))
  {
  }

  /** A rotation about the z axis by the angle whose cosine is c and sine is s. */
  function ZRotation(c: real, s: real): Matrix4
  {
    [c, s, 0.0, 0.0,
     -s, c, 0.0, 0.0,
     0.0, 0.0, 1.0, 0.0,
     0.0, 0.0, 0.0, 1.0]
  }

  /**
   * A rotation about the z axis counts as rotated exactly when its sine is
   * further than Epsilon from 0: a quarter turn is, a half turn is not.
   */
  lemma ZRotationIsRotated(c: real, s: real)
    ensures IsRotated(ZRotation(c, s)) <==> Abs(s) > Epsilon
    ensures IsRotated(ZRotation(0.0, 1.0)) && !IsRotated(ZRotation(-1.0, 0.0))
  {
    assert Abs(-s) == Abs(s);
  }
}
