/**
 * What the read loop delivers for whole conversations (sections 5.4 and 5.5 of RFC 6455): any list
 * of messages, each cut into any fragments, with pings, pongs and unknown-opcode frames between
 * them, every frame in any valid wire form.
 */
module WsStream {
  import opened Common
  import opened WsFrames

  /** One data frame of a message, and the other frames that arrive just before it. */
  datatype Fragment = Fragment(before: seq<WireFrame>, data: WireFrame)

  ghost predicate Noise(frames: seq<WireFrame>)
  {
    forall f :: f in frames ==> !IsData(f.opcode) && f.opcode != OP_CLOSE
  }

  /** The fragments of one message from `first` on: text, then continuations, FIN on the last. */
  ghost predicate Fragments(fs: seq<Fragment>, first: bool)
  {
    && fs != []
    && Noise(fs[0].before)
    && fs[0].data.opcode == (if first then OP_TEXT else OP_CONTINUATION)
    && fs[0].data.fin == (|fs| == 1)
    && (|fs| > 1 ==> Fragments(fs[1..], false))
  }

  ghost predicate Messages(ms: seq<seq<Fragment>>) { forall m :: m in ms ==> Fragments(m, true) }

  // ── Meaning ──────────────────────────────────────────────────────────────────────────────────

  ghost function Payload(fs: seq<Fragment>): seq<Byte>
  {
    if fs == [] then [] else fs[0].data.payload + Payload(fs[1..])
  }

  /** The answers owed to a run of frames: one pong per ping, with the ping's own payload. */
  ghost function Pongs(frames: seq<WireFrame>): seq<Out>
  {
    if frames == [] then []
    else When(frames[0].opcode == OP_PING, Pong(frames[0].payload)) + Pongs(frames[1..])
  }

  ghost function PongsWithin(fs: seq<Fragment>): seq<Out>
  {
    if fs == [] then [] else Pongs(fs[0].before) + PongsWithin(fs[1..])
  }

  ghost function Expected(ms: seq<seq<Fragment>>): seq<Out>
  {
    if ms == [] then [] else PongsWithin(ms[0]) + [Message(Payload(ms[0]))] + Expected(ms[1..])
  }

  // ── Bytes ────────────────────────────────────────────────────────────────────────────────────

  ghost function FramesOf(fs: seq<Fragment>): seq<WireFrame>
  {
    if fs == [] then [] else fs[0].before + [fs[0].data] + FramesOf(fs[1..])
  }

  ghost function FramesOfAll(ms: seq<seq<Fragment>>): seq<WireFrame>
  {
    if ms == [] then [] else FramesOf(ms[0]) + FramesOfAll(ms[1..])
  }

  ghost function Wire(frames: seq<WireFrame>): seq<Byte>
  {
    if frames == [] then [] else EncodeFrame(frames[0]) + Wire(frames[1..])
  }

  // ── From bytes to frames ─────────────────────────────────────────────────────────────────────

  ghost function Items(frames: seq<WireFrame>): seq<Item>
  {
    if frames == [] then []
    else [Item(frames[0].fin, frames[0].opcode, frames[0].payload)] + Items(frames[1..])
  }

  lemma {:induction false} ParseOne(f: WireFrame, rest: seq<Byte>)
    ensures ParseAll(EncodeFrame(f) + rest) == [Item(f.fin, f.opcode, f.payload)] + ParseAll(rest)
  {
    FrameRoundTrip(f, rest);
  }

  /** The reader finds exactly the frames that were sent, and then whatever follows. */
  lemma {:induction false} ParseWire(frames: seq<WireFrame>, rest: seq<Byte>)
    ensures ParseAll(Wire(frames) + rest) == Items(frames) + ParseAll(rest)
    decreases |frames|
  {
    if frames == [] {
      assert Wire(frames) + rest == rest;
    } else {
      var f, tail := frames[0], frames[1..];
      Assoc(EncodeFrame(f), Wire(tail), rest);
      ParseOne(f, Wire(tail) + rest);
      ParseWire(tail, rest);
      Assoc([Item(f.fin, f.opcode, f.payload)], Items(tail), ParseAll(rest));
    }
  }

  // ── The loop over frames ─────────────────────────────────────────────────────────────────────

  const LIVE := Env(true, true, true)

  ghost predicate AlwaysLive(env: nat -> Env) { forall k :: env(k) == LIVE }

  ghost function Play(frames: seq<WireFrame>, message: seq<Byte>, k: nat, env: nat -> Env): Turn
  {
    Run(Items(frames), message, k, env)
  }

  ghost function Then(t: Turn, r: Turn): Turn
  {
    if t.stop then t else Turn(t.outs + r.outs, r.message, r.stop)
  }

  lemma {:induction false} ThenThen(t: Turn, r: Turn, q: Turn)
    ensures Then(Then(t, r), q) == Then(t, Then(r, q))
  {
  }

  lemma {:induction false} RunCons(item: Item, items: seq<Item>, message: seq<Byte>, k: nat, env: nat -> Env)
    requires env(k).top
    ensures var t := OnFrame(item.fin, item.opcode, item.payload, message, env(k));
            Run([item] + items, message, k, env) == Then(t, Run(items, t.message, k + 1, env))
  {
  }

  lemma {:induction false} RunConcat(a: seq<Item>, b: seq<Item>, message: seq<Byte>, k: nat, env: nat -> Env)
    ensures var t := Run(a, message, k, env);
            Run(a + b, message, k, env) == Then(t, Run(b, t.message, k + |a|, env))
    decreases |a|
  {
    if a == [] {
      assert a + b == b;
    } else if env(k).top {
      var x, tail := a[0], a[1..];
      assert a == [x] + tail;
      var t := OnFrame(x.fin, x.opcode, x.payload, message, env(k));
      var r := Run(tail, t.message, k + 1, env);
      RunConcat(tail, b, t.message, k + 1, env);
      RunConsAgain(x, tail, b, message, k, env);
      ThenThen(t, r, Run(b, r.message, k + |a|, env));
    }
  }

  lemma {:induction false} RunConsAgain(
    item: Item, tail: seq<Item>, b: seq<Item>, message: seq<Byte>, k: nat, env: nat -> Env)
    requires env(k).top
    ensures var t, a := OnFrame(item.fin, item.opcode, item.payload, message, env(k)), [item] + tail;
      && Run(a, message, k, env) == Then(t, Run(tail, t.message, k + 1, env))
      && Run(a + b, message, k, env) == Then(t, Run(tail + b, t.message, k + 1, env))
  {
    Assoc([item], tail, b);
    RunCons(item, tail + b, message, k, env);
    RunCons(item, tail, message, k, env);
  }

  lemma {:induction false} ItemsConcat(a: seq<WireFrame>, b: seq<WireFrame>)
    ensures Items(a + b) == Items(a) + Items(b)
    ensures |Items(a)| == |a|
  {
    if a == [] {
      assert a + b == b;
    } else {
      assert (a + b)[1..] == a[1..] + b;
      ItemsConcat(a[1..], b);
      Assoc([Item(a[0].fin, a[0].opcode, a[0].payload)], Items(a[1..]), Items(b));
    }
  }

  lemma {:induction false} PlayConcat(a: seq<WireFrame>, b: seq<WireFrame>, message: seq<Byte>, k: nat, env: nat -> Env)
    ensures var t := Play(a, message, k, env);
            Play(a + b, message, k, env) == Then(t, Play(b, t.message, k + |a|, env))
  {
    ItemsConcat(a, b);
    RunConcat(Items(a), Items(b), message, k, env);
  }

  lemma {:induction false} PlayOne(f: WireFrame, message: seq<Byte>, k: nat, env: nat -> Env)
    requires env(k) == LIVE
    ensures Play([f], message, k, env) == OnFrame(f.fin, f.opcode, f.payload, message, LIVE)
  {
    var t := OnFrame(f.fin, f.opcode, f.payload, message, LIVE);
    RunCons(Item(f.fin, f.opcode, f.payload), [], message, k, env);
    var one: seq<WireFrame> := [f];
    assert one[1..] == [] && Items(one) == [Item(f.fin, f.opcode, f.payload)] + [];
    assert t.outs + [] == t.outs;
  }

  lemma {:induction false} PlayNoise(frames: seq<WireFrame>, message: seq<Byte>, k: nat, env: nat -> Env)
    requires Noise(frames) && AlwaysLive(env)
    ensures Play(frames, message, k, env) == Turn(Pongs(frames), message, false)
    decreases |frames|
  {
    if frames != [] {
      PlayOne(frames[0], message, k, env);
      PlayConcat([frames[0]], frames[1..], message, k, env);
      PlayNoise(frames[1..], message, k + 1, env);
      assert [frames[0]] + frames[1..] == frames;
    }
  }

  lemma {:induction false} PlayFragment(fr: Fragment, message: seq<Byte>, k: nat, env: nat -> Env)
    requires Noise(fr.before) && IsData(fr.data.opcode) && AlwaysLive(env)
    ensures var total := message + fr.data.payload;
            Play(fr.before + [fr.data], message, k, env)
            == Turn(Pongs(fr.before) + When(fr.data.fin, Message(total)), if fr.data.fin then [] else total, false)
  {
    PlayNoise(fr.before, message, k, env);
    PlayOne(fr.data, message, k + |fr.before|, env);
    PlayConcat(fr.before, [fr.data], message, k, env);
  }

  lemma {:induction false} PlayLast(fs: seq<Fragment>, message: seq<Byte>, k: nat, env: nat -> Env)
    requires |fs| == 1 && Noise(fs[0].before) && IsData(fs[0].data.opcode) && fs[0].data.fin && AlwaysLive(env)
    ensures Play(FramesOf(fs), message, k, env)
            == Turn(PongsWithin(fs) + [Message(message + Payload(fs))], [], false)
  {
    var before, data := fs[0].before, fs[0].data;
    PlayFragment(fs[0], message, k, env);
    assert fs[1..] == [] && before + [data] + [] == before + [data];
    assert data.payload + [] == data.payload && Pongs(before) + [] == Pongs(before);
  }

  lemma {:induction false} PlayMessage(fs: seq<Fragment>, first: bool, message: seq<Byte>, k: nat, env: nat -> Env)
    requires Fragments(fs, first) && AlwaysLive(env)
    ensures Play(FramesOf(fs), message, k, env)
            == Turn(PongsWithin(fs) + [Message(message + Payload(fs))], [], false)
    decreases |fs|
  {
    if |fs| == 1 {
      PlayLast(fs, message, k, env);
    } else {
      var before, data, tail := fs[0].before, fs[0].data, fs[1..];
      PlayFragment(fs[0], message, k, env);
      PlayConcat(before + [data], FramesOf(tail), message, k, env);
      PlayMessage(tail, false, message + data.payload, k + |before| + 1, env);
      Assoc(message, data.payload, Payload(tail));
      ThenMessage(Pongs(before), message + data.payload, PongsWithin(tail), Message(message + Payload(fs)));
    }
  }

  lemma {:induction false} ThenMessage(a: seq<Out>, message: seq<Byte>, b: seq<Out>, out: Out)
    ensures Then(Turn(a + [], message, false), Turn(b + [out], [], false)) == Turn(a + b + [out], [], false)
  {
    assert a + [] == a;
  }

  lemma {:induction false} PlayMessages(ms: seq<seq<Fragment>>, k: nat, env: nat -> Env)
    requires Messages(ms) && AlwaysLive(env)
    ensures Play(FramesOfAll(ms), [], k, env) == Turn(Expected(ms), [], false)
    decreases |ms|
  {
    if ms != [] {
      PlayMessage(ms[0], true, [], k, env);
      assert [] + Payload(ms[0]) == Payload(ms[0]);
      PlayMessages(ms[1..], k + |FramesOf(ms[0])|, env);
      PlayConcat(FramesOf(ms[0]), FramesOfAll(ms[1..]), [], k, env);
    }
  }

  // ── Theorems ─────────────────────────────────────────────────────────────────────────────────

  lemma {:induction false} PlayConversation(
    ms: seq<seq<Fragment>>, noise: seq<WireFrame>, close: WireFrame, env: nat -> Env)
    requires Messages(ms) && Noise(noise) && AlwaysLive(env)
    requires close.opcode == OP_CLOSE
    ensures Play(FramesOfAll(ms) + noise + [close], [], 0, env) == Turn(Expected(ms) + Pongs(noise), [], true)
  {
    var body := FramesOfAll(ms);
    PlaySoFar(ms, noise, env);
    PlayOne(close, [], |body + noise|, env);
    PlayConcat(body + noise, [close], [], 0, env);
    assert Expected(ms) + Pongs(noise) + [] == Expected(ms) + Pongs(noise);
  }

  /** While the connection stays registered and open, the loop emits exactly the messages, whole
      and in order, answers every ping in its place with its own payload, and delivers nothing
      after the first close frame, whatever bytes follow it. */
  lemma {:induction false} Conversation(
    ms: seq<seq<Fragment>>, noise: seq<WireFrame>, close: WireFrame, junk: seq<Byte>, env: nat -> Env)
    requires Messages(ms) && Noise(noise) && AlwaysLive(env)
    requires close.opcode == OP_CLOSE
    ensures Delivered(Wire(FramesOfAll(ms) + noise + [close]) + junk, env) == Expected(ms) + Pongs(noise)
  {
    var frames := FramesOfAll(ms) + noise + [close];
    PlayConversation(ms, noise, close, env);
    ParseWire(frames, junk);
    RunConcat(Items(frames), ParseAll(junk), [], 0, env);
  }

  lemma {:induction false} PlaySoFar(ms: seq<seq<Fragment>>, noise: seq<WireFrame>, env: nat -> Env)
    requires Messages(ms) && Noise(noise) && AlwaysLive(env)
    ensures Play(FramesOfAll(ms) + noise, [], 0, env) == Turn(Expected(ms) + Pongs(noise), [], false)
  {
    var body := FramesOfAll(ms);
    PlayMessages(ms, 0, env);
    PlayNoise(noise, [], |body|, env);
    PlayConcat(body, noise, [], 0, env);
  }

  /** On a socket still open, the same holds of what has come so far: every whole message is out and
      every ping answered, whatever part of a next frame has arrived. */
  lemma {:induction false} SoFar(ms: seq<seq<Fragment>>, noise: seq<WireFrame>, partial: seq<Byte>, env: nat -> Env)
    requires Messages(ms) && Noise(noise) && AlwaysLive(env)
    requires !ParseFrame(partial).Got?
    ensures Delivered(Wire(FramesOfAll(ms) + noise) + partial, env) == Expected(ms) + Pongs(noise)
  {
    PlaySoFar(ms, noise, env);
    ParseWire(FramesOfAll(ms) + noise, partial);
    NothingMore(Items(FramesOfAll(ms) + noise));
  }

  lemma {:induction false} NothingMore(items: seq<Item>)
    ensures items + [] == items
  {
  }

  lemma {:induction false} ParseMore(s: seq<Byte>, more: seq<Byte>)
    ensures ParseAll(s) <= ParseAll(s + more)
    decreases |s|
  {
    ParseExtends(s, more);
    var p := ParseFrame(s);
    if p.Got? {
      ParseMore(p.rest, more);
    }
  }

  /** Streaming: what was emitted for a prefix of the bytes stays emitted, in the same order, when
      more bytes arrive. So a stream cut anywhere delivers a prefix of the full conversation. */
  lemma {:induction false} DeliveredExtends(s: seq<Byte>, more: seq<Byte>, env: nat -> Env)
    ensures Delivered(s, env) <= Delivered(s + more, env)
  {
    ParseMore(s, more);
    RunExtends(ParseAll(s), ParseAll(s + more), env);
  }

  lemma {:induction false} RunExtends(a: seq<Item>, all: seq<Item>, env: nat -> Env)
    requires a <= all
    ensures Run(a, [], 0, env).outs <= Run(all, [], 0, env).outs
  {
    assert all == a + all[|a|..];
    RunConcat(a, all[|a|..], [], 0, env);
  }

  ghost function MessagesIn(outs: seq<Out>): seq<Out>
  {
    if outs == [] then [] else When(outs[0].Message?, outs[0]) + MessagesIn(outs[1..])
  }

  /** A connection that lost its registration never gets it back, and a closed one never reopens. */
  ghost predicate Monotone(env: nat -> Env)
  {
    && (forall k :: env(k).emit ==> env(k).top)
    && (forall j, k :: j < k && env(k).top ==> env(j).emit)
    && (forall j, k :: j < k && env(k).open ==> env(j).open)
  }

  lemma {:induction false} MessagesAfter(a: seq<Out>, b: seq<Out>)
    requires |a| <= 1
    ensures MessagesIn(a + b) == MessagesIn(a) + MessagesIn(b)
  {
    if a == [] {
      assert a + b == b;
    } else {
      assert (a + b)[1..] == b;
    }
  }

  lemma {:induction false} SupersededRun(
    items: seq<Item>, message: seq<Byte>, k: nat, env: nat -> Env, live: nat -> Env)
    requires Monotone(env) && AlwaysLive(live)
    ensures MessagesIn(Run(items, message, k, env).outs) <= MessagesIn(Run(items, message, k, live).outs)
    decreases |items|
  {
    if items != [] && env(k).top {
      var t := OnFrame(items[0].fin, items[0].opcode, items[0].payload, message, env(k));
      var u := OnFrame(items[0].fin, items[0].opcode, items[0].payload, message, LIVE);
      if !t.stop {
        var rest, liveRest := Run(items[1..], t.message, k + 1, env).outs, Run(items[1..], t.message, k + 1, live).outs;
        SupersededRun(items[1..], t.message, k + 1, env, live);
        assert env(k).emit || rest == [] by { assert env(k).emit || !env(k + 1).top; }
        MessagesOn(t.outs, u.outs, rest, liveRest);
      }
    }
  }

  /** One more frame, emitting the same messages or else the last of the run. */
  lemma {:induction false} MessagesOn(a: seq<Out>, b: seq<Out>, c: seq<Out>, d: seq<Out>)
    requires |a| <= 1 && |b| <= 1 && MessagesIn(c) <= MessagesIn(d)
    requires MessagesIn(a) == MessagesIn(b) || (MessagesIn(a) == [] && c == [])
    ensures MessagesIn(a + c) <= MessagesIn(b + d)
  {
    MessagesAfter(a, c);
    MessagesAfter(b, d);
  }

  ghost function PongsIn(outs: seq<Out>): seq<Out>
  {
    if outs == [] then [] else When(outs[0].Pong?, outs[0]) + PongsIn(outs[1..])
  }

  /** The pings among the frames that the loop reads, those that arrive while the socket is open. */
  ghost function Answered(items: seq<Item>, k: nat, env: nat -> Env): seq<Out>
  {
    if items == [] || !env(k).top || items[0].opcode == OP_CLOSE then []
    else When(items[0].opcode == OP_PING && env(k).open, Pong(items[0].payload)) + Answered(items[1..], k + 1, env)
  }

  lemma {:induction false} PongsAfter(a: seq<Out>, b: seq<Out>)
    requires |a| <= 1
    ensures PongsIn(a + b) == PongsIn(a) + PongsIn(b)
  {
    if a == [] {
      assert a + b == b;
    } else {
      assert (a + b)[1..] == b;
    }
  }

  lemma {:induction false} AnsweredRun(items: seq<Item>, message: seq<Byte>, k: nat, env: nat -> Env)
    ensures PongsIn(Run(items, message, k, env).outs) == Answered(items, k, env)
    decreases |items|
  {
    if items != [] && env(k).top {
      var t := OnFrame(items[0].fin, items[0].opcode, items[0].payload, message, env(k));
      if !t.stop {
        AnsweredRun(items[1..], t.message, k + 1, env);
        PongsAfter(t.outs, Run(items[1..], t.message, k + 1, env).outs);
      }
    }
  }

  lemma {:induction false} SilentOnceClosed(items: seq<Item>, k: nat, env: nat -> Env)
    requires forall j :: j >= k ==> !env(j).open
    ensures Answered(items, k, env) == []
    decreases |items|
  {
    if items != [] && env(k).top { SilentOnceClosed(items[1..], k + 1, env); }
  }

  lemma {:induction false} AnsweredPrefix(items: seq<Item>, k: nat, env: nat -> Env, live: nat -> Env)
    requires Monotone(env) && AlwaysLive(live)
    ensures Answered(items, k, env) <= Answered(items, k, live)
    decreases |items|
  {
    if items != [] && env(k).top {
      if env(k).open {
        AnsweredPrefix(items[1..], k + 1, env, live);
      } else {
        SilentOnceClosed(items, k, env);
      }
    }
  }

  /** Once the registration is lost no message comes out, whatever completes. */
  lemma {:induction false} SilentOnceLost(items: seq<Item>, message: seq<Byte>, k: nat, env: nat -> Env)
    requires forall j :: j >= k ==> !env(j).emit
    ensures MessagesIn(Run(items, message, k, env).outs) == []
    decreases |items|
  {
    if items != [] && env(k).top {
      var t := OnFrame(items[0].fin, items[0].opcode, items[0].payload, message, env(k));
      if !t.stop {
        SilentOnceLost(items[1..], t.message, k + 1, env);
        MessagesAfter(t.outs, Run(items[1..], t.message, k + 1, env).outs);
      }
    }
  }

  /** Replaced or closed mid-stream, the loop has delivered a prefix of the messages, and answered a
      prefix of the pings: exactly those it read while the socket was open. */
  lemma {:induction false} Superseded(s: seq<Byte>, env: nat -> Env, live: nat -> Env)
    requires Monotone(env) && AlwaysLive(live)
    ensures MessagesIn(Delivered(s, env)) <= MessagesIn(Delivered(s, live))
    ensures PongsIn(Delivered(s, env)) <= PongsIn(Delivered(s, live))
    ensures PongsIn(Delivered(s, env)) == Answered(ParseAll(s), 0, env)
  {
    SupersededRun(ParseAll(s), [], 0, env, live);
    AnsweredRun(ParseAll(s), [], 0, env);
    AnsweredRun(ParseAll(s), [], 0, live);
    AnsweredPrefix(ParseAll(s), 0, env, live);
  }
}
