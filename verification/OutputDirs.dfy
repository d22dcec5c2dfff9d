/** The directories that hold recorded output, as the server moves from one to the
next (server/src/output.rs). */
module OutputDirs {
  import opened Wrappers

  type Path = string

  const MAX_PREVIOUS_DIRS := 4

  datatype Dirs = Dirs(current: Path, previous: seq<Path>, maxFsize: nat)

  datatype Move = Move(dir: Path, maxFsize: nat)

  function Other(dirs: seq<Path>, dir: Path): (r: seq<Path>)
    ensures |r| <= |dirs|
  {
    if |dirs| == 0 then []
    else (if dirs[0] == dir then [] else [dirs[0]]) + Other(dirs[1..], dir)
  }

  function Truncate(dirs: seq<Path>, n: nat): seq<Path> {
    if |dirs| <= n then dirs else dirs[..n]
  }

  function MovedTo(d: Dirs, m: Move): Dirs {
    Dirs(m.dir,
         Truncate((if m.dir != d.current then [d.current] else []) + Other(d.previous, m.dir), MAX_PREVIOUS_DIRS),
         m.maxFsize)
  }

  function Bases(d: Dirs): seq<Path> {
    [d.current] + d.previous
  }

  function After(first: Move, moves: seq<Move>): Dirs {
    if |moves| == 0 then Dirs(first.dir, [], first.maxFsize)
    else MovedTo(After(first, moves[..|moves| - 1]), moves[|moves| - 1])
  }

  // ---- The whole history, newest first

  /** Each directory of a history where it was last moved to, newest first. */
  function Recent(history: seq<Path>, seen: set<Path>): seq<Path> {
    if |history| == 0 then []
    else
      var dir, rest := history[|history| - 1], history[..|history| - 1];
      if dir in seen then Recent(rest, seen) else [dir] + Recent(rest, seen + {dir})
  }

  lemma {:induction false} RecentIsDistinct(history: seq<Path>, seen: set<Path>)
    ensures Distinct(Recent(history, seen))
    ensures forall d :: d in Recent(history, seen) <==> d in history && d !in seen
  {
    if |history| > 0 {
      var dir, rest := history[|history| - 1], history[..|history| - 1];
      assert history == rest + [dir];
      RecentIsDistinct(rest, seen);
      RecentIsDistinct(rest, seen + {dir});
    }
  }

  lemma {:induction false} RecentWithout(history: seq<Path>, seen: set<Path>, dir: Path)
    ensures Recent(history, seen + {dir}) == Other(Recent(history, seen), dir)
  {
    if |history| > 0 {
      var last, rest := history[|history| - 1], history[..|history| - 1];
      RecentWithout(rest, seen, dir);
      RecentWithout(rest, seen + {last}, dir);
      assert seen + {dir} + {last} == seen + {last} + {dir};
      if last == dir {
        var r := Recent(rest, seen + {dir});
        RecentIsDistinct(rest, seen + {dir});
        assert seen + {dir} + {dir} == seen + {dir};
        NothingOther(r, dir);
        assert ([dir] + r)[1..] == r;
      } else if last !in seen {
        var r := Recent(rest, seen + {last});
        assert ([last] + r)[1..] == r;
      }
    }
  }

  lemma {:induction false} NothingOther(dirs: seq<Path>, dir: Path)
    requires dir !in dirs
    ensures Other(dirs, dir) == dirs
  {
    if |dirs| > 0 {
      NothingOther(dirs[1..], dir);
    }
  }

  /** Cutting a list before dropping one directory loses nothing that cutting it
      one shorter afterwards would keep. */
  lemma {:induction false} CutEarly(dirs: seq<Path>, dir: Path, n: nat)
    requires Distinct(dirs)
    ensures Truncate(Other(Truncate(dirs, n + 1), dir), n) == Truncate(Other(dirs, dir), n)
  {
    if |dirs| > n + 1 {
      var cut := dirs[..n + 1];
      if dirs[0] == dir {
        NothingOther(dirs[1..], dir);
        NothingOther(cut[1..], dir);
        assert cut[1..] == dirs[1..][..n];
      } else if n > 0 {
        CutEarly(dirs[1..], dir, n - 1);
        assert cut[1..] == dirs[1..][..n];
        assert Truncate(dirs[1..], n) == cut[1..];
        CutOne(dirs[0], Other(cut[1..], dir), n);
        CutOne(dirs[0], Other(dirs[1..], dir), n);
      }
    }
  }

  lemma {:induction false} CutOne(dir: Path, rest: seq<Path>, n: nat)
    requires n > 0
    ensures Truncate([dir] + rest, n) == [dir] + Truncate(rest, n - 1)
  {
  }

  /** New jobs are written where the last move went, under its limit. */
  lemma {:induction false} LastMoveIsInForce(first: Move, moves: seq<Move>)
    ensures var last := if |moves| == 0 then first else moves[|moves| - 1];
            Bases(After(first, moves))[0] == last.dir && After(first, moves).maxFsize == last.maxFsize
  {
  }

  function History(first: Move, moves: seq<Move>): (h: seq<Path>)
    ensures |h| == |moves| + 1
  {
    [first.dir] + seq(|moves|, i requires 0 <= i < |moves| => moves[i].dir)
  }

  /** After any moves the bases are the five directories moved to last, newest
      first and each once: cutting the list at every move keeps what cutting it
      once at the end would. */
  lemma {:induction false} BasesAreRecent(first: Move, moves: seq<Move>)
    ensures Bases(After(first, moves)) == Truncate(Recent(History(first, moves), {}), MAX_PREVIOUS_DIRS + 1)
    ensures Distinct(Bases(After(first, moves)))
  {
    var history := History(first, moves);
    RecentIsDistinct(history, {});
    if |moves| == 0 {
      assert history[..0] == [];
      assert Recent(history, {}) == [first.dir];
    } else {
      var k := |moves| - 1;
      var before, dir := After(first, moves[..k]), moves[k].dir;
      var known := Recent(History(first, moves[..k]), {});
      BasesAreRecent(first, moves[..k]);
      RecentIsDistinct(History(first, moves[..k]), {});
      assert history[..|moves|] == History(first, moves[..k]);
      RecentWithout(History(first, moves[..k]), {}, dir);
      assert Recent(history, {}) == [dir] + Other(known, dir);
      assert Other(Bases(before), dir)
          == (if dir != before.current then [before.current] else []) + Other(before.previous, dir) by {
        assert Bases(before)[1..] == before.previous;
      }
      CutEarly(known, dir, MAX_PREVIOUS_DIRS);
      CutOne(dir, Other(known, dir), MAX_PREVIOUS_DIRS + 1);
    }
  }
}
