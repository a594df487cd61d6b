/**
 runtime/stat: the streaming statistics table, its periodic dump, and the rotation of the file it is dumped to.
 The text layout and the sorting of the rows are left to the libraries that do them.
 */
module Stat {
  import opened Wrappers
  import opened Decimal

  // ----- keys

  const SEP: string := "$$$"

  function Digits(n: nat): string {
    if n < 10 then [Digit(n)] else Digits(n / 10) + [Digit(n % 10)]
  }

  /** Digits that spell the number, without a leading zero. */
  lemma {:induction false} DigitsSpell(n: nat)
    ensures IsNumeral(Digits(n)) && Numeral(Digits(n)) == n && (Digits(n)[0] == '0' ==> n == 0)
  {
    var s := Digits(n);
    if n >= 10 {
      DigitsSpell(n / 10);
      assert s[..|s| - 1] == Digits(n / 10);
    } else {
      assert s[..0] == [];
    }
  }

  /** `strconv.Atoi`, if the text is a number. */
  function Atoi(s: string): Option<int> {
    if s != [] && s[0] == '-' && IsNumeral(s[1..]) then Some(-Numeral(s[1..]))
    else if s != [] && s[0] == '+' && IsNumeral(s[1..]) then Some(Numeral(s[1..]))
    else if IsNumeral(s) then Some(Numeral(s))
    else None
  }

  lemma AtoiInverse(n: int)
    ensures Atoi(Itoa(n)) == Some(n)
  {
    DigitsSpell(if n < 0 then -n else n);
    if n < 0 {
      assert Itoa(n)[1..] == Digits(-n);
    } else {
      assert Digits(n)[0] in Digits(n);
    }
  }

  /** `strconv.Itoa`. */
  function Itoa(n: int): string {
    if n < 0 then "-" + Digits(-n) else Digits(n)
  }

  function Key(cmd: string, ret: int): string {
    cmd + SEP + Itoa(ret)
  }

  lemma {:induction false} DigitsPlain(n: nat)
    ensures forall c <- Digits(n) :: '0' <= c <= '9'
  {
    if n >= 10 {
      DigitsPlain(n / 10);
    }
  }

  lemma ItoaPlain(n: int)
    ensures '$' !in Itoa(n)
  {
    DigitsPlain(if n < 0 then -n else n);
  }

  lemma {:induction false} DigitsDiffer(a: nat, b: nat)
    requires Digits(a) == Digits(b)
    ensures a == b
  {
    var x, y := Digits(a), Digits(b);
    assert x[|x| - 1] == Digit(a % 10) && y[|y| - 1] == Digit(b % 10);
    DigitIsOwn(a % 10, b % 10);
    if a >= 10 || b >= 10 {
      assert |Digits(a / 10)| > 0 && |Digits(b / 10)| > 0;
      assert a >= 10 && b >= 10;
      assert x[..|x| - 1] == Digits(a / 10) && y[..|y| - 1] == Digits(b / 10);
      DigitsDiffer(a / 10, b / 10);
    }
  }

  lemma LongerTail(cmd: string, t: string, cmd': string, t': string)
    requires cmd + SEP + t == cmd' + SEP + t' && |t| < |t'|
    ensures '$' in t'
  {
    var k, i := cmd + SEP + t, |t'| - |t| - 1;
    assert k[|k| - |t| - 1] == '$' && k[|k| - |t'| + i] == t'[i];
  }

  /** Two samples share a row exactly if they share the command and the result. */
  lemma KeyIsOwn(cmd: string, ret: int, cmd': string, ret': int)
    ensures Key(cmd, ret) == Key(cmd', ret') <==> cmd == cmd' && ret == ret'
  {
    if Key(cmd, ret) == Key(cmd', ret') {
      ItoaPlain(ret);
      ItoaPlain(ret');
      var k, t, t' := Key(cmd, ret), Itoa(ret), Itoa(ret');
      if |t| < |t'| {
        LongerTail(cmd, t, cmd', t');
      } else if |t'| < |t| {
        LongerTail(cmd', t', cmd, t);
      }
      assert |t| == |t'|;
      assert k[..|cmd|] == cmd && k[..|cmd|] == cmd' && k[|k| - |t|..] == t && k[|k| - |t|..] == t';
      ItoaDiffers(ret, ret');
    }
  }

  lemma SignShows(n: int)
    ensures Itoa(n)[0] == '-' <==> n < 0
  {
    if n >= 0 {
      DigitsPlain(n);
      assert Digits(n)[0] in Digits(n);
    }
  }

  lemma ItoaDiffers(a: int, b: int)
    requires Itoa(a) == Itoa(b)
    ensures a == b
  {
    SignShows(a);
    SignShows(b);
    if a < 0 {
      assert Itoa(a)[1..] == Digits(-a) && Itoa(b)[1..] == Digits(-b);
      DigitsDiffer(-a, -b);
    } else {
      DigitsDiffer(a, b);
    }
  }

  /** How many separators `strings.Split` finds, from the left and without overlap. */
  function Seps(s: string): nat {
    if |s| < 3 then 0 else if s[..3] == SEP then 1 + Seps(s[3..]) else Seps(s[1..])
  }

  predicate WellFormed(key: string) {
    Seps(key) == 1
  }

  lemma {:induction false} NoSeps(s: string, n: nat)
    requires n <= |s| && n <= 2 && '$' !in s[n..]
    ensures Seps(s) == 0
    decreases |s|
  {
    if |s| >= 3 {
      assert s[2] == s[n..][2 - n];
      assert s[1..][(if n > 0 then n - 1 else 0)..] == s[(if n > 0 then n else 1)..];
      NoSeps(s[1..], if n > 0 then n - 1 else 0);
    }
  }

  /** A row is reported exactly if its command spells no separator. */
  lemma {:induction false} SepsOfKey(cmd: string, tail: string)
    requires '$' !in tail
    ensures Seps(cmd + SEP + tail) == Seps(cmd) + 1
  {
    var s := cmd + SEP + tail;
    if s[..3] == SEP {
      if |cmd| >= 3 {
        assert cmd[..3] == s[..3] && s[3..] == cmd[3..] + SEP + tail;
        SepsOfKey(cmd[3..], tail);
      } else {
        assert s[3..][|cmd|..] == tail;
        NoSeps(s[3..], |cmd|);
      }
    } else {
      assert cmd != [];
      assert s[1..] == cmd[1..] + SEP + tail;
      SepsOfKey(cmd[1..], tail);
      if |cmd| >= 3 {
        assert cmd[..3] == s[..3];
      }
    }
  }

  /** What comes before and after the first separator. */
  function Cut(s: string): (string, string) {
    if |s| < 3 then (s, "")
    else if s[..3] == SEP then ("", s[3..])
    else ([s[0]] + Cut(s[1..]).0, Cut(s[1..]).1)
  }

  const MAX_INT32: int := 0x7fff_ffff

  /** The command and the result a dump reads back from a key. */
  function CmdOf(key: string): string {
    Cut(key).0
  }

  function RetOf(key: string): int {
    match Atoi(Cut(key).1) case Some(n) => n case None => MAX_INT32
  }

  lemma {:induction false} CutClean(cmd: string, tail: string)
    requires Seps(cmd) == 0 && (cmd == "" || cmd[|cmd| - 1] != '$')
    ensures Cut(cmd + SEP + tail) == (cmd, tail)
  {
    var s := cmd + SEP + tail;
    if cmd == "" {
      assert s[..3] == SEP && s[3..] == tail;
    } else {
      if |cmd| >= 3 {
        assert s[..3] == cmd[..3];
      } else {
        assert s[|cmd| - 1] == cmd[|cmd| - 1];
      }
      assert s[1..] == cmd[1..] + SEP + tail;
      CutClean(cmd[1..], tail);
      assert cmd == [cmd[0]] + cmd[1..];
    }
  }

  /** A separator that begins in the command is found before the one that follows it. */
  lemma {:induction false} CutEarly(cmd: string, tail: string)
    requires cmd != "" && cmd[|cmd| - 1] == '$'
    ensures |Cut(cmd + SEP + tail).0| < |cmd| && '$' in Cut(cmd + SEP + tail).1
  {
    var s := cmd + SEP + tail;
    if s[..3] == SEP {
      assert s[3..][|cmd| - 1] == '$';
    } else {
      assert |cmd| > 1;
      assert s[1..] == cmd[1..] + SEP + tail;
      CutEarly(cmd[1..], tail);
    }
  }

  lemma NoNumber(text: string)
    requires '$' in text
    ensures Atoi(text) == None
  {
    if text[0] in "+-" {
      assert text == [text[0]] + text[1..];
    }
  }

  /**
   A reported row shows its own command and result, exactly if the command does not end in a dollar sign; if it does, the
   row shows a part of it and the largest int32.
   */
  lemma RowIsOwn(cmd: string, ret: int)
    requires WellFormed(Key(cmd, ret))
    ensures CmdOf(Key(cmd, ret)) == cmd && RetOf(Key(cmd, ret)) == ret <==> cmd == "" || cmd[|cmd| - 1] != '$'
    ensures cmd != "" && cmd[|cmd| - 1] == '$' ==> |CmdOf(Key(cmd, ret))| < |cmd| && RetOf(Key(cmd, ret)) == 2_147_483_647
  {
    ItoaPlain(ret);
    SepsOfKey(cmd, Itoa(ret));
    if cmd == "" || cmd[|cmd| - 1] != '$' {
      CutClean(cmd, Itoa(ret));
      AtoiInverse(ret);
    } else {
      CutEarly(cmd, Itoa(ret));
      NoNumber(Cut(Key(cmd, ret)).1);
    }
  }

  // ----- samples and what a table says of them

  /** One finished call; `ns` is the time it took, which a clock set back makes negative. */
  datatype Sample = Sample(cmd: string, ret: int, ns: int64)

  const MAX_INT64: int := 0x7fff_ffff_ffff_ffff

  type int64 = x: int | -MAX_INT64 - 1 <= x <= MAX_INT64 witness 0

  datatype StatValue = StatValue(Total: int, Max: int, Min: int, Gt10: int, Gt100: int, Gt500: int, TotalD: int)

  /** Go's division of nanoseconds into microseconds, toward zero. */
  function Micros(ns: int): (d: int)
    ensures if ns >= 0 then 1000 * d <= ns < 1000 * (d + 1) else 1000 * (d - 1) < ns <= 1000 * d
  {
    if ns >= 0 then ns / 1000 else -((-ns) / 1000)
  }

  /** The durations of the samples of one row, in the order they came. */
  function Row(samples: seq<Sample>, key: string): seq<int> {
    if samples == [] then []
    else
      var s := samples[|samples| - 1];
      Row(samples[..|samples| - 1], key) + if Key(s.cmd, s.ret) == key then [Micros(s.ns)] else []
  }

  function Sum(ds: seq<int>): int {
    if ds == [] then 0 else Sum(ds[..|ds| - 1]) + ds[|ds| - 1]
  }

  /** How many durations lie from `low` up to but not including `high`, if there is one. */
  function Between(ds: seq<int>, low: int, high: Option<int>): nat {
    if ds == [] then 0
    else
      var d := ds[|ds| - 1];
      Between(ds[..|ds| - 1], low, high) + if low <= d && (high.None? || d < high.value) then 1 else 0
  }

  ghost predicate Greatest(m: int, ds: seq<int>) {
    m in ds && forall d <- ds :: d <= m
  }

  ghost predicate Least(m: int, ds: seq<int>) {
    m in ds && forall d <- ds :: m <= d
  }

  /** The batch summary of a row. */
  ghost predicate Summary(v: StatValue, ds: seq<int>) {
    && v.Total == |ds| && v.TotalD == Sum(ds) && Greatest(v.Max, ds) && Least(v.Min, ds)
    && v.Gt10 == Between(ds, 10_000, Some(100_000))
    && v.Gt100 == Between(ds, 100_000, Some(500_000))
    && v.Gt500 == Between(ds, 500_000, None)
  }

  ghost predicate Table(m: map<string, StatValue>, samples: seq<Sample>) {
    && (forall s <- samples :: Key(s.cmd, s.ret) in m)
    && (forall k <- m.Keys :: Row(samples, k) != [] && Summary(m[k], Row(samples, k)))
  }

  /** What one line of a dump reports. */
  datatype Line = Line(cmd: string, ret: int, v: StatValue)

  /** What the tail line of a dump reports. */
  datatype Tail = Tail(total: int, max: int, min: int, gt10: int, gt100: int, gt500: int)

  class StatMgr {
    var m: map<string, StatValue>
    ghost var samples: seq<Sample>

    ghost predicate Valid()
      reads this
    {
      Table(m, samples)
    }

    constructor ()
      ensures Valid() && m == map[] && samples == []
    {
      m, samples := map[], [];
    }

    /** `stat`: the running table stays the batch summary of everything sampled since the last dump. */
    method AddStat(st: Sample)
      requires Valid()
      modifies this
      ensures Valid() && samples == old(samples) + [st]
    {
      hide Key, Micros, Row, Summary;
      var cmdRet, d := Key(st.cmd, st.ret), Micros(st.ns);
      var v: StatValue;
      if cmdRet in m {
        v := m[cmdRet];
        if d > v.Max {
          v := v.(Max := d);
        }
        if d < v.Min {
          v := v.(Min := d);
        }
        v := v.(Total := v.Total + 1, TotalD := v.TotalD + d);
      } else {
        v := StatValue(1, d, d, 0, 0, 0, d);
      }
      if 10_000 <= d < 100_000 {
        v := v.(Gt10 := v.Gt10 + 1);
      } else if 100_000 <= d < 500_000 {
        v := v.(Gt100 := v.Gt100 + 1);
      } else if 500_000 <= d {
        v := v.(Gt500 := v.Gt500 + 1);
      }
      TableGrows(m, samples, st, v);
      m := m[cmdRet := v];
      samples := samples + [st];
    }

    /**
     `dump` reports every row whose key has exactly one separator, sums the rows up, and empties the table. The tail
     line is the batch summary of all samples whose command spells no separator.
     */
    method Dump() returns (report: Option<Tail>, lines: seq<Line>, ghost keys: seq<string>)
      requires Valid()
      modifies this
      ensures Valid() && m == map[] && samples == []
      ensures report == None <==> old(samples) == []
      ensures report.Some? ==> TailOf(report.value, Reported(old(samples)))
      ensures |lines| == |keys| && forall i, j :: 0 <= i < j < |keys| ==> keys[i] != keys[j]
      ensures forall k :: k in keys <==> k in old(m) && WellFormed(k)
      ensures forall i :: 0 <= i < |lines| ==>
                keys[i] in old(m) && lines[i] == Line(CmdOf(keys[i]), RetOf(keys[i]), old(m)[keys[i]])
    {
      hide Summary, Row, Between, WellFormed, Reported, Pick, RunningTail, TailOf, Cut, Atoi;
      lines, keys := [], [];
      if |m| < 1 {
        if samples != [] {
          HasRow(m, samples);
        }
        samples := [];
        return None, lines, keys;
      }
      var t := Tail(0, 0, MAX_INT64, 0, 0, 0);
      ghost var before, table, done: set<string> := samples, m, {};
      StartTail(before);
      while m.Keys != {}
        invariant m.Keys <= table.Keys && forall k <- m.Keys :: m[k] == table[k]
        invariant done == set k | k in table && k !in m && WellFormed(k)
        invariant RunningTail(t, Pick(before, done))
        invariant |lines| == |keys| && (forall i, j :: 0 <= i < j < |keys| ==> keys[i] != keys[j])
        invariant forall k :: k in keys <==> k in done
        invariant forall i :: 0 <= i < |lines| ==>
                    keys[i] in table && lines[i] == Line(CmdOf(keys[i]), RetOf(keys[i]), table[keys[i]])
        decreases m.Keys
      {
        var k :| k in m.Keys;
        var v := m[k];
        m := m - {k};
        if WellFormed(k) {
          TailGrows(t, before, done, k, v);
          done := done + {k};
          var sps, ret := Cut(k), MAX_INT32;
          if Atoi(sps.1).Some? {
            ret := Atoi(sps.1).value;
          }
          keys, lines := keys + [k], lines + [Line(sps.0, ret, v)];
          t := AddRow(t, v);
        }
      }
      PickedIsReported(table, before, done);
      HasSample(table, before);
      TailDone(t, Pick(before, done));
      if t.min == MAX_INT64 {
        t := t.(min := 0);
      }
      samples := [];
      return Some(t), lines, keys;
    }
  }

  /** One reported row enters the sums. */
  method AddRow(tail: Tail, v: StatValue) returns (t: Tail)
    requires v.Gt10 >= 0 && v.Gt100 >= 0 && v.Gt500 >= 0
    ensures t == WithRow(tail, v)
  {
    t := tail.(total := tail.total + v.Total);
    if v.Max > t.max {
      t := t.(max := v.Max);
    }
    if v.Min < t.min {
      t := t.(min := v.Min);
    }
    if v.Gt10 > 0 {
      t := t.(gt10 := t.gt10 + v.Gt10);
    }
    if v.Gt100 > 0 {
      t := t.(gt100 := t.gt100 + v.Gt100);
    }
    if v.Gt500 > 0 {
      t := t.(gt500 := t.gt500 + v.Gt500);
    }
  }

  function WithRow(t: Tail, v: StatValue): Tail {
    Tail(t.total + v.Total, if v.Max > t.max then v.Max else t.max, if v.Min < t.min then v.Min else t.min,
         t.gt10 + v.Gt10, t.gt100 + v.Gt100, t.gt500 + v.Gt500)
  }

  /** The durations of the samples whose command spells no separator. */
  function Reported(samples: seq<Sample>): seq<int> {
    if samples == [] then []
    else
      var s := samples[|samples| - 1];
      Reported(samples[..|samples| - 1]) + if Seps(s.cmd) == 0 then [Micros(s.ns)] else []
  }

  /** The durations of the samples of some rows. */
  function Pick(samples: seq<Sample>, keys: set<string>): seq<int> {
    if samples == [] then []
    else
      var s := samples[|samples| - 1];
      Pick(samples[..|samples| - 1], keys) + if Key(s.cmd, s.ret) in keys then [Micros(s.ns)] else []
  }

  /** A tail line, while the least is still the largest int64 if there is nothing to report. */
  ghost predicate RunningTail(t: Tail, ds: seq<int>) {
    && t.total == |ds|
    && (forall d <- ds :: d <= t.max) && (t.max == 0 || t.max in ds) && t.max >= 0
    && (if ds == [] then t.min == MAX_INT64 else Least(t.min, ds) && t.min < MAX_INT64)
    && t.gt10 == Between(ds, 10_000, Some(100_000))
    && t.gt100 == Between(ds, 100_000, Some(500_000))
    && t.gt500 == Between(ds, 500_000, None)
  }

  /** The greatest is at least 0, the least is 0 if there is nothing to report. */
  ghost predicate TailOf(t: Tail, ds: seq<int>) {
    && t.total == |ds|
    && (if exists d <- ds :: d > 0 then Greatest(t.max, ds) else t.max == 0)
    && (if ds == [] then t.min == 0 else Least(t.min, ds))
    && t.gt10 == Between(ds, 10_000, Some(100_000))
    && t.gt100 == Between(ds, 100_000, Some(500_000))
    && t.gt500 == Between(ds, 500_000, None)
  }

  lemma HasRow(m: map<string, StatValue>, samples: seq<Sample>)
    requires Table(m, samples) && samples != []
    ensures |m| >= 1
  {
    assert samples[0] in samples;
    assert Key(samples[0].cmd, samples[0].ret) in m.Keys;
  }

  lemma HasSample(m: map<string, StatValue>, samples: seq<Sample>)
    requires Table(m, samples) && |m| >= 1
    ensures samples != []
  {
    var k :| k in m.Keys;
    RowEmpty(samples, k);
  }

  lemma TailDone(t: Tail, ds: seq<int>)
    requires RunningTail(t, ds)
    ensures TailOf(if t.min == MAX_INT64 then t.(min := 0) else t, ds)
  {
  }

  lemma {:induction false} StartTail(samples: seq<Sample>)
    ensures RunningTail(Tail(0, 0, MAX_INT64, 0, 0, 0), Pick(samples, {}))
  {
    if samples != [] {
      StartTail(samples[..|samples| - 1]);
      assert Pick(samples, {}) == Pick(samples[..|samples| - 1], {});
    }
  }

  lemma {:induction false} PickMore(samples: seq<Sample>, keys: set<string>, k: string)
    requires k !in keys
    ensures var all, some, row := Pick(samples, keys + {k}), Pick(samples, keys), Row(samples, k);
            && |all| == |some| + |row|
            && (forall d :: d in all <==> d in some || d in row)
            && forall low, high :: Between(all, low, high) == Between(some, low, high) + Between(row, low, high)
  {
    if samples != [] {
      var s := samples[|samples| - 1];
      var front := samples[..|samples| - 1];
      PickMore(front, keys, k);
      BetweenAppend(Pick(front, keys + {k}), Micros(s.ns));
      BetweenAppend(Pick(front, keys), Micros(s.ns));
      BetweenAppend(Row(front, k), Micros(s.ns));
      if Key(s.cmd, s.ret) !in keys + {k} {
        assert Pick(samples, keys + {k}) == Pick(front, keys + {k}) && Pick(samples, keys) == Pick(front, keys);
        assert Row(samples, k) == Row(front, k);
      } else if Key(s.cmd, s.ret) == k {
        assert Pick(samples, keys) == Pick(front, keys);
      } else {
        assert Row(samples, k) == Row(front, k);
      }
    }
  }

  lemma BetweenAppend(ds: seq<int>, d: int)
    ensures forall low, high {:trigger Between(ds, low, high)} ::
              Between(ds + [d], low, high) == Between(ds, low, high) + if low <= d && (high.None? || d < high.value) then 1 else 0
  {
    assert (ds + [d])[..|ds|] == ds;
  }

  lemma {:induction false} RowIsSmall(samples: seq<Sample>, k: string)
    ensures forall d <- Row(samples, k) :: d < MAX_INT64
  {
    if samples != [] {
      RowIsSmall(samples[..|samples| - 1], k);
    }
  }

  lemma TailGrows(t: Tail, samples: seq<Sample>, done: set<string>, k: string, v: StatValue)
    requires RunningTail(t, Pick(samples, done)) && k !in done && Row(samples, k) != [] && Summary(v, Row(samples, k))
    ensures RunningTail(WithRow(t, v), Pick(samples, done + {k}))
    ensures v.Gt10 >= 0 && v.Gt100 >= 0 && v.Gt500 >= 0
  {
    hide Pick, Row, Between;
    PickMore(samples, done, k);
    RowIsSmall(samples, k);
  }

  lemma {:induction false} PickedIsReported(m: map<string, StatValue>, samples: seq<Sample>, done: set<string>)
    requires (forall s <- samples :: Key(s.cmd, s.ret) in m) && done == set k | k in m && WellFormed(k)
    ensures Pick(samples, done) == Reported(samples)
  {
    if samples != [] {
      var s := samples[|samples| - 1];
      PickedIsReported(m, samples[..|samples| - 1], done);
      ItoaPlain(s.ret);
      SepsOfKey(s.cmd, Itoa(s.ret));
      assert s in samples;
    }
  }

  /** The row of one more sample, and every other row. */
  lemma RowGrows(samples: seq<Sample>, st: Sample, key: string)
    ensures Row(samples + [st], key) == Row(samples, key) + if Key(st.cmd, st.ret) == key then [Micros(st.ns)] else []
  {
    assert (samples + [st])[..|samples|] == samples;
  }

  lemma {:induction false} RowEmpty(samples: seq<Sample>, key: string)
    ensures Row(samples, key) == [] <==> forall s <- samples :: Key(s.cmd, s.ret) != key
  {
    hide Key;
    if samples != [] {
      var front, last := samples[..|samples| - 1], samples[|samples| - 1];
      RowEmpty(front, key);
      assert samples == front + [last];
      assert forall s <- samples :: s in front || s == last;
    }
  }

  /** One duration more in a summary. */
  ghost predicate Raised(v: StatValue, d: int, w: StatValue) {
    && w.Total == v.Total + 1 && w.TotalD == v.TotalD + d
    && w.Max == (if d > v.Max then d else v.Max) && w.Min == (if d < v.Min then d else v.Min)
    && w.Gt10 == v.Gt10 + (if 10_000 <= d < 100_000 then 1 else 0)
    && w.Gt100 == v.Gt100 + (if 100_000 <= d < 500_000 then 1 else 0)
    && w.Gt500 == v.Gt500 + (if 500_000 <= d then 1 else 0)
  }

  lemma SummaryGrows(v: StatValue, ds: seq<int>, d: int, w: StatValue)
    requires Raised(v, d, w)
    requires if ds == [] then v == StatValue(0, d, d, 0, 0, 0, 0) else Summary(v, ds)
    ensures Summary(w, ds + [d])
  {
    assert (ds + [d])[..|ds|] == ds;
  }

  lemma TableGrows(m: map<string, StatValue>, samples: seq<Sample>, st: Sample, w: StatValue)
    requires Table(m, samples)
    requires var k, d := Key(st.cmd, st.ret), Micros(st.ns);
             Raised(if k in m then m[k] else StatValue(0, d, d, 0, 0, 0, 0), d, w)
    ensures Table(m[Key(st.cmd, st.ret) := w], samples + [st])
  {
    hide Summary, Row, Raised;
    var key, d := Key(st.cmd, st.ret), Micros(st.ns);
    RowEmpty(samples, key);
    SummaryGrows(if key in m then m[key] else StatValue(0, d, d, 0, 0, 0, 0), Row(samples, key), d, w);
    forall k <- m.Keys + {key}
      ensures Row(samples + [st], k) != [] && Summary(m[key := w][k], Row(samples + [st], k))
    {
      RowGrows(samples, st, k);
      if k != key {
        assert Row(samples, k) + [] == Row(samples, k);
      }
    }
  }

  // ----- the file the dumps go to

  const MAX_STAT_FILE_SIZE: int := 100 * 1024 * 1024
  const MAX_STAT_FILE_COUNT: nat := 10

  function Renamed(files: map<nat, string>, i: nat, j: nat): map<nat, string> {
    if i in files then (files - {i})[j := files[i]] else files
  }

  /** The archives above `i` have moved up by one, and what was numbered 10 is kept only if number 9 was missing. */
  ghost predicate Shifted(was: map<nat, string>, files: map<nat, string>, i: nat) {
    && (forall k :: k <= i || k > 10 ==> (k in files <==> k in was) && (k in files ==> files[k] == was[k]))
    && (forall k :: i < k < 10 ==> (k + 1 in files <==> (k in was || (k == 9 && 10 in was))))
    && (forall k :: i < k < 10 && k in was ==> files[k + 1] == was[k])
    && (10 in was && 9 !in was ==> 10 in files && files[10] == was[10])
    && (i < 9 ==> i + 1 !in files)
    && (i == 9 ==> (10 in files <==> 10 in was))
  }

  lemma ShiftedOn(was: map<nat, string>, files: map<nat, string>, i: nat)
    requires 0 < i <= 9 && Shifted(was, files, i)
    ensures Shifted(was, Renamed(files, i, i + 1), i - 1)
  {
  }

  /** What the rotation leaves. */
  ghost predicate Rotated(was: map<nat, string>, files: map<nat, string>)
    requires 0 in was
  {
    && (forall k: nat :: k in files <==> k <= 1 || (2 <= k <= 10 && k - 1 in was) || (k >= 10 && k in was))
    && 0 in files && 1 in files && files[0] == "" && files[1] == was[0]
    && (forall i :: 1 <= i < 10 && i in was ==> i + 1 in files && files[i + 1] == was[i])
    && (forall k :: k > 10 && k in was ==> k in files && files[k] == was[k])
    && (10 in was && 9 !in was ==> 10 in files && files[10] == was[10])
  }

  lemma LastShift(was: map<nat, string>, files: map<nat, string>)
    requires 0 in was && Shifted(was, files, 0)
    ensures Rotated(was, Renamed(files, 0, 1)[0 := ""])
  {
  }

  /** The live file has number 0, the archive `name.i` number i; renaming onto a number replaces what it held. */
  class StatFiles {
    var files: map<nat, string>

    constructor (files: map<nat, string>)
      ensures this.files == files
    {
      this.files := files;
    }

    /** `os.Rename` fails, here without a trace, if there is no such file. */
    method Rename(i: nat, j: nat)
      requires i != j
      modifies this
      ensures files == Renamed(old(files), i, j)
    {
      if i in files {
        files := (files - {i})[j := files[i]];
      }
    }

    /**
     `rotateFile`: below the size limit nothing moves; above it every file moves up by one number and a new live
     file is opened. Only the archive numbered 10 can be lost, and it is lost exactly if number 9 exists.
     */
    method RotateFile(size: int)
      requires 0 in files
      modifies this
      ensures size < 104_857_600 ==> files == old(files)
      ensures size >= 104_857_600 ==> Rotated(old(files), files)
    {
      if size < MAX_STAT_FILE_SIZE {
        return;
      }
      hide Renamed, Rotated;
      var i: nat := MAX_STAT_FILE_COUNT - 1;
      while i > 0
        invariant 0 <= i <= 9 && Shifted(old(files), files, i)
      {
        hide Shifted;
        ShiftedOn(old(files), files, i);
        Rename(i, i + 1);
        i := i - 1;
      }
      LastShift(old(files), files);
      Rename(0, 1);
      files := files[0 := ""];
    }
  }
}
