/** The browser logic of client/src/script.ts and of its predecessor client/script.ts that
    reads the server's formats back: manifest names parsed into chunk positions, the list
    of names already drawn, the countdown text, `timeSince`, and the gate in front of a
    placement. Drawing, the DOM, timers and `fetch` are not modelled. */
module Client {
  import opened Js
  import opened Data
  import opened Jwt
  import opened Store
  import opened Server
  import opened ServerV2

  /** The parse of `getState`: `l.split('_')[2].split('-')`, then `parseInt` of the first
      two pieces. With fewer than three '_' pieces `split0[2]` is undefined and calling
      `split` on it throws (None); a missing second '-' piece parses as NaN. */
  function ParseChunkName(name: string): (r: Option<(Num, Num)>)
    ensures r.None? <==> |Split(name, '_')| < 3
  {
    var split0 := Split(name, '_');
    if |split0| < 3 then None
    else
      var split1 := Split(split0[2], '-');
      Some((ParseInt(split1[0]), if |split1| >= 2 then ParseInt(split1[1]) else NaN))
  }

  /** The name the server gives a chunk parses back to that chunk's position. */
  lemma NameRoundTrip(t: int, x: nat, y: nat)
    ensures ParseChunkName(ChunkName(t, x, y)) == Some((Int(x), Int(y)))
  {
    var tail := Decimal(x) + "-" + Decimal(y) + ".png";
    assert ChunkName(t, x, y) == "c_" + Decimal(t) + "_" + tail;
    TailPieces(x, y);
    NamePieces(t, tail);
    ParseIntOfDecimal(x, []);
    assert Decimal(x) + [] == Decimal(x);
    ParseIntOfDecimal(y, ".png");
  }

  /** The '_' pieces of a chunk name: "c", the time, and the rest. */
  lemma NamePieces(t: int, tail: string)
    requires '_' !in tail
    ensures Split("c_" + Decimal(t) + "_" + tail, '_') == ["c", Decimal(t), tail]
  {
    DecimalSeparators(t);
    var d := Decimal(t);
    assert "c_" + d + "_" + tail == "c" + ['_'] + (d + ['_'] + tail);
    SplitAtSeparator("c", '_', d + ['_'] + tail);
    SplitAtSeparator(d, '_', tail);
    SplitWithoutSeparator(tail, '_');
  }

  /** The '-' pieces of the rest of a chunk name: the column, and the row followed by
      ".png"; neither piece contains '_'. */
  lemma TailPieces(x: nat, y: nat)
    ensures '_' !in Decimal(x) + "-" + Decimal(y) + ".png"
    ensures Split(Decimal(x) + "-" + Decimal(y) + ".png", '-') == [Decimal(x), Decimal(y) + ".png"]
  {
    DecimalSeparators(x);
    DecimalSeparators(y);
    var rest := Decimal(y) + ".png";
    assert Decimal(x) + "-" + rest == Decimal(x) + ['-'] + rest;
    assert Decimal(x) + "-" + Decimal(y) + ".png" == Decimal(x) + "-" + rest;
    assert '-' !in rest && '_' !in rest by {
      assert rest == Decimal(y) + ['.', 'p', 'n', 'g'];
    }
    SplitAtSeparator(Decimal(x), '-', rest);
    SplitWithoutSeparator(rest, '-');
  }

  /** Every entry of the manifest parses to the chunk it names: entry i is chunk
      (i div ROWS, i mod ROWS). */
  lemma ManifestParsesBack(lastUpdates: seq<seq<int>>, i: int)
    requires Shaped(lastUpdates) && 0 <= i < COLS * ROWS
    ensures ParseChunkName(Manifest(lastUpdates)[i]) == Some((Int(i / ROWS), Int(i % ROWS)))
  {
    assert COLS == 2 && ROWS == 2;
    var x, y := i / ROWS, i % ROWS;
    SlotValue(x, y);
    assert Slot(x, y) == i;
    NameRoundTrip(lastUpdates[x][y], x, y);
  }

  /** A name with no '_' at all makes the parse throw. */
  lemma NameWithoutUnderscoreThrows(name: string)
    requires '_' !in name
    ensures ParseChunkName(name) == None
  {
    SplitWithoutSeparator(name, '_');
  }

  /** No name occurs twice. */
  predicate Distinct(s: seq<string>)
  {
    forall i, j :: 0 <= i < j < |s| ==> s[i] != s[j]
  }

  /** What one poll leaves behind: the remembered names, the positions drawn, and whether
      a parse threw, which ends the poll. */
  datatype PollResult = PollResult(last: seq<string>, draws: seq<(Num, Num)>, threw: bool)

  /** The loop over the names of one `/state` reply: a name already remembered is skipped;
      a new one is remembered first and then parsed; a parse that throws ends the loop. */
  function Admit(last: seq<string>, names: seq<string>): (r: PollResult)
    decreases |names|
  {
    if names == [] then PollResult(last, [], false)
    else if names[0] in last then Admit(last, names[1..])
    else
      var remembered := last + [names[0]];
      match ParseChunkName(names[0])
      case None => PollResult(remembered, [], true)
      case Some(p) =>
        var r := Admit(remembered, names[1..]);
        PollResult(r.last, [p] + r.draws, r.threw)
  }

  /** One poll of `getState`: the loop, then, if it did not throw, drop the oldest name when
      more than 50 are remembered. */
  function PollSpec(last: seq<string>, names: seq<string>): (r: PollResult)
    ensures var a := Admit(last, names);
      r.draws == a.draws && r.threw == a.threw &&
      (r.last == a.last || (!a.threw && |a.last| > 50 && r.last == a.last[1..]))
  {
    var a := Admit(last, names);
    if !a.threw && |a.last| > 50 then PollResult(a.last[1..], a.draws, a.threw) else a
  }

  /** The names remembered before come first, and each new name is either drawn or is the
      one that threw: the list grows by one per draw, plus the one that threw. */
  lemma {:induction false} AdmitCounts(last: seq<string>, names: seq<string>)
    ensures var a := Admit(last, names);
      |a.last| == |last| + |a.draws| + (if a.threw then 1 else 0) && a.last[..|last|] == last
    decreases |names|
  {
    if names != [] {
      if names[0] in last {
        AdmitCounts(last, names[1..]);
      } else if ParseChunkName(names[0]).Some? {
        var remembered := last + [names[0]];
        AdmitCounts(remembered, names[1..]);
        var r := Admit(remembered, names[1..]);
        assert r.last[..|last|] == r.last[..|remembered|][..|last|];
      }
    }
  }

  /** The remembered names never repeat. */
  lemma {:induction false} AdmitKeepsDistinct(last: seq<string>, names: seq<string>)
    requires Distinct(last)
    ensures Distinct(Admit(last, names).last)
    decreases |names|
  {
    if names != [] {
      if names[0] in last {
        AdmitKeepsDistinct(last, names[1..]);
      } else {
        var remembered := last + [names[0]];
        assert Distinct(remembered);
        if ParseChunkName(names[0]).Some? {
          AdmitKeepsDistinct(remembered, names[1..]);
        }
      }
    }
  }

  /** After a poll that did not throw, every name of the reply is remembered. */
  lemma {:induction false} AdmitRemembersAll(last: seq<string>, names: seq<string>)
    requires !Admit(last, names).threw
    ensures forall n :: n in names ==> n in Admit(last, names).last
    decreases |names|
  {
    if names != [] {
      var remembered := if names[0] in last then last else last + [names[0]];
      AdmitCounts(remembered, names[1..]);
      AdmitRemembersAll(remembered, names[1..]);
      var a := Admit(remembered, names[1..]);
      assert names[0] in a.last by {
        assert names[0] in remembered;
        assert remembered == a.last[..|remembered|];
      }
      forall n | n in names ensures n in a.last {
        if n != names[0] {
          assert n in names[1..];
        }
      }
    }
  }

  /** The cap of 50 only holds while at most one new name arrives per poll: a poll that
      draws two or more new chunks leaves the list longer than it was. */
  lemma PollGrowth(last: seq<string>, names: seq<string>)
    requires !PollSpec(last, names).threw
    ensures |last| <= 50 && |PollSpec(last, names).draws| <= 1 ==> |PollSpec(last, names).last| <= 50
    ensures |PollSpec(last, names).draws| >= 2 ==> |PollSpec(last, names).last| > |last|
  {
    AdmitCounts(last, names);
  }

  /** The client's list of the manifest names it has already drawn (`lastState`). */
  class StatePoller {
    var lastState: seq<string>

    constructor ()
      ensures lastState == []
    {
      lastState := [];
    }

    /** The `then` of `getState` over one `/state` reply: the positions of the chunks to
        draw, and whether a parse threw. */
    method Poll(names: seq<string>) returns (draws: seq<(Num, Num)>, threw: bool)
      modifies this
      ensures PollResult(lastState, draws, threw) == PollSpec(old(lastState), names)
    {
      ghost var last0 := lastState;
      draws, threw := [], false;
      var i := 0;
      while i < |names|
        invariant 0 <= i <= |names|
        invariant Admit(last0, names) ==
          (var r := Admit(lastState, names[i..]); PollResult(r.last, draws + r.draws, r.threw))
      {
        var l := names[i];
        assert names[i..][1..] == names[i + 1..];
        if l !in lastState {
          lastState := lastState + [l];
          var p := ParseChunkName(l);
          if p.None? {
            threw := true;
            return;
          }
          assert [p.value] + Admit(lastState, names[i + 1..]).draws == [p.value] + Admit(lastState, names[i + 1..]).draws;
          assert draws + ([p.value] + Admit(lastState, names[i + 1..]).draws) ==
            (draws + [p.value]) + Admit(lastState, names[i + 1..]).draws;
          draws := draws + [p.value];
        }
        i := i + 1;
      }
      assert draws + [] == draws;
      if |lastState| > 50 {
        lastState := lastState[1..];
      }
    }
  }

  /** `pad(s, l)`: zeros in front up to length l; a string already that long is kept. */
  function ZeroPadded(s: string, l: int): (r: string)
    ensures |r| == if |s| >= l then |s| else l
    ensures r[|r| - |s|..] == s
    ensures forall i :: 0 <= i < |r| - |s| ==> r[i] == '0'
    ensures |s| >= l ==> r == s
  {
    if |s| >= l then s else seq(l - |s|, _ => '0') + s
  }

  /** The loop of `pad`. */
  method Pad(s: string, l: int) returns (r: string)
    ensures r == ZeroPadded(s, l)
  {
    r := s;
    while |r| < l
      invariant |s| <= |r| && (|s| < |r| ==> |r| <= l)
      invariant r == seq(|r| - |s|, _ => '0') + s
      decreases l - |r|
    {
      r := "0" + r;
    }
  }

  /** The countdown `tickTimer` shows for `diff` seconds left: None when the timer stops,
      otherwise whole minutes and the seconds left over. */
  function Countdown(diff: int): (r: Option<(int, int)>)
    ensures r.None? <==> diff <= 0
    ensures r.Some? ==> r.value.0 >= 0 && 0 <= r.value.1 < 60 && 60 * r.value.0 + r.value.1 == diff
  {
    if diff <= 0 then None
    else
      var m := diff / 60;
      Some((m, diff - m * 60))
  }

  /** Minutes and seconds are the only split of `diff` with seconds below 60. */
  lemma CountdownUnique(diff: int, m: int, s: int)
    requires diff > 0 && 0 <= s < 60 && 60 * m + s == diff
    ensures Countdown(diff) == Some((m, s))
  {
  }

  /** A number below 100 renders with at most two digits. */
  lemma SmallDecimal(n: nat)
    requires n < 100
    ensures |Decimal(n)| <= 2
  {
    if n >= 10 {
      assert Digits(n) == Digits(n / 10) + [DigitChar(n % 10)];
    }
  }

  /** The text `tickTimer` writes: `MM:SS`, both padded to two digits. */
  function TimerText(diff: int): (r: string)
    requires diff > 0
  {
    var (m, s) := Countdown(diff).value;
    ZeroPadded(Decimal(m), 2) + ":" + ZeroPadded(Decimal(s), 2)
  }

  /** Under 100 minutes the text is five characters, `:` in the middle, the seconds two
      digits with a leading zero below ten. */
  lemma TimerTextShape(diff: int)
    requires 0 < diff < 6000
    ensures |TimerText(diff)| == 5 && TimerText(diff)[2] == ':'
    ensures TimerText(diff)[3..] == ZeroPadded(Decimal(Countdown(diff).value.1), 2)
  {
    var c := Countdown(diff);
    var m, s := c.value.0, c.value.1;
    assert m < 100;
    var a, b := ZeroPadded(Decimal(m), 2), ZeroPadded(Decimal(s), 2);
    assert TimerText(diff) == a + ":" + b;
    PaddedToTwo(m);
    PaddedToTwo(s);
    ColonJoined(a, b);
  }

  /** Two two-character strings joined by ':' put the colon at index 2. */
  lemma ColonJoined(a: string, b: string)
    requires |a| == 2 && |b| == 2
    ensures |a + ":" + b| == 5 && (a + ":" + b)[2] == ':' && (a + ":" + b)[3..] == b
  {
    assert (a + ":" + b)[3..] == b;
  }

  /** A number below 100, padded to two, is two characters long. */
  lemma PaddedToTwo(n: nat)
    requires n < 100
    ensures |ZeroPadded(Decimal(n), 2)| == 2
  {
    SmallDecimal(n);
  }

  /** The units `timeSince` tries, largest first. */
  datatype Unit = Years | Months | Days | Hours | Minutes | Seconds

  function UnitSeconds(u: Unit): (s: int)
    ensures s >= 1
  {
    match u
    case Years => 31536000
    case Months => 2592000
    case Days => 86400
    case Hours => 3600
    case Minutes => 60
    case Seconds => 1
  }

  /** The count and unit `timeSince` reports. */
  datatype Elapsed = Elapsed(count: int, unit: Unit)

  /** `Math.floor(a / b)` with a floating-point quotient equals integer floor division,
      and the quotient exceeds 1 exactly when `a > b`. */
  lemma FloorOfQuotient(a: int, b: int)
    requires b > 0
    ensures (a as real / b as real).Floor == a / b
    ensures a as real / b as real > 1.0 <==> a > b
  {
    var q, r := a / b, a % b;
    assert a == q * b + r && 0 <= r < b;
    var x := a as real / b as real;
    assert x == q as real + r as real / b as real;
    assert 0.0 <= r as real / b as real < 1.0;
  }

  /** Elapsed whole seconds: `Math.floor((Date.now() - date) / 1000)`. */
  function ElapsedSeconds(nowMs: int, dateMs: int): int
  {
    (nowMs - dateMs) / 1000
  }

  /** `timeSince(date)` at `Date.now() == nowMs`: the largest unit the elapsed time strictly
      exceeds, with the whole number of such units; otherwise the seconds. */
  function TimeSince(nowMs: int, dateMs: int): (r: Elapsed)
    ensures var s := ElapsedSeconds(nowMs, dateMs);
      r.count == s / UnitSeconds(r.unit) &&
      (r.unit != Seconds ==> s > UnitSeconds(r.unit) && r.count >= 1) &&
      (forall u :: UnitSeconds(u) > UnitSeconds(r.unit) ==> s <= UnitSeconds(u))
  {
    var seconds := ElapsedSeconds(nowMs, dateMs);
    FloorOfQuotient(seconds, 31536000);
    FloorOfQuotient(seconds, 2592000);
    FloorOfQuotient(seconds, 86400);
    FloorOfQuotient(seconds, 3600);
    FloorOfQuotient(seconds, 60);
    var years := seconds as real / 31536000.0;
    if years > 1.0 then Elapsed(years.Floor, Years)
    else
      var months := seconds as real / 2592000.0;
      if months > 1.0 then Elapsed(months.Floor, Months)
      else
        var days := seconds as real / 86400.0;
        if days > 1.0 then Elapsed(days.Floor, Days)
        else
          var hours := seconds as real / 3600.0;
          if hours > 1.0 then Elapsed(hours.Floor, Hours)
          else
            var minutes := seconds as real / 60.0;
            if minutes > 1.0 then Elapsed(minutes.Floor, Minutes)
            else Elapsed(seconds, Seconds)
  }

  /** The comparisons are strict: exactly one year ago reads as twelve months, exactly one
      minute ago as sixty seconds. */
  lemma ExactUnitsReadSmaller()
    ensures TimeSince(31536000 * 1000, 0) == Elapsed(12, Months)
    ensures TimeSince(60 * 1000, 0) == Elapsed(60, Seconds)
  {
    FloorOfQuotient(31536000, 2592000);
  }

  /** The gate of `placeSelectedColor`: a colour is selected and the cooldown the server
      announced is over. */
  predicate GateOpen(selectedColor: int, next: int, now: int)
  {
    selectedColor >= 0 && now >= next
  }

  /** The placement controls of a client: the selected colour (-1 for none), the selected
      pixel, the time the server said the next placement is allowed (`canvasState.n`), and
      the pixels the client has filled itself after a 200. */
  class Placer {
    var selectedColor: int
    var x: int
    var y: int
    var next: int
    var painted: map<(int, int), int>

    constructor (x: int, y: int, next: int)
      ensures selectedColor == -1 && this.x == x && this.y == y && this.next == next && painted == map[]
    {
      selectedColor, this.x, this.y, this.next, painted := -1, x, y, next, map[];
    }

    /** `placeSelectedColor` up to the request: the body it sends, if the gate lets it. */
    method Place(now: int) returns (request: Option<seq<int>>)
      ensures request.Some? <==> GateOpen(selectedColor, next, now)
      ensures request.Some? ==> request.value == [x, y, selectedColor] && request.value[2] >= 0
    {
      if selectedColor < 0 {
        return None;
      }
      if now < next {
        return None;
      }
      request := Some([x, y, selectedColor]);
    }

    /** The reply handlers: fill the pixel on a 200, clear the selection, and take `next`
        from the JSON body when it is there and truthy. A body that is not JSON rejects
        `res.json()`, so `next` stays. */
    method Receive(status: int, nextField: Option<int>)
      modifies this
      ensures selectedColor == -1 && x == old(x) && y == old(y)
      ensures painted == if status == 200 then old(painted)[(x, y) := old(selectedColor)] else old(painted)
      ensures next == if nextField.Some? && nextField.value != 0 then nextField.value else old(next)
    {
      if status == 200 {
        painted := painted[(x, y) := selectedColor];
      }
      selectedColor := -1;
      if nextField.Some? && nextField.value != 0 {
        next := nextField.value;
      }
    }
  }

  /** The client waits for the time the server announced, and that wait covers the
      server's cooldown for the token it issued with the same reply; with the normal
      cooldown the two coincide. */
  lemma WaitCoversCooldown(w: World, req: Request, threshold: real, now: int, later: int)
    requires WorldShaped(w)
    requires PlaceSpec(w, req, threshold, now).reply.Next?
    ensures var o := PlaceSpec(w, req, threshold, now);
      o.token.Some? && o.token.value.lst == Some(now) &&
      (GateOpen(0, o.reply.next, later) ==> later - o.token.value.lst.value >= TIMEOUT) &&
      (Cooldown(req.captcha, threshold) == TIMEOUT ==>
        (GateOpen(0, o.reply.next, later) <==> later - o.token.value.lst.value >= TIMEOUT))
  {
  }

  /** Against server/server.ts the wait and the cooldown always coincide. */
  lemma WaitMatchesCooldownV2(w: World, req: RequestV2, now: int, later: int)
    requires WorldShaped(w)
    requires PlaceSpecV2(w, req, now).reply.Next?
    ensures var o := PlaceSpecV2(w, req, now);
      o.token.Some? && o.token.value.lst == Some(now) &&
      (GateOpen(0, o.reply.next, later) <==> later - o.token.value.lst.value >= TIMEOUT)
  {
  }
}
