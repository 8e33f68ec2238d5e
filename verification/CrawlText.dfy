/**
 The crawl state file: BeesRoots::state_to_stream prints one line per crawl, and state_load reads it
 back with split and from_hex (src/bees-roots.cc, lib/string.cc).
 */
module CrawlText {

  import opened Common

  datatype Error = InvalidArgument | OutOfRange | RuntimeError
  datatype Result<T> = Ok(value: T) | Err(error: Error)

  // ----- split

  /** string::find from position n. */
  function Find(delim: string, s: string, n: nat): (r: Option<nat>)
    requires delim != ""
    ensures r.Some? ==> n <= r.value && r.value + |delim| <= |s|
    decreases |s| - n
  {
    if n + |delim| > |s| then None else if s[n..n + |delim|] == delim then Some(n) else Find(delim, s, n + 1)
  }

  /** What lies between position n and the next delimiter, if it is not empty. */
  function Head(delim: string, s: string, n: nat): seq<string>
    requires delim != "" && n < |s|
  {
    var f := Find(delim, s, n);
    if f.None? then [s[n..]] else if f.value > n then [s[n..f.value]] else []
  }

  /** The position after the next delimiter. */
  function Next(delim: string, s: string, n: nat): (m: nat)
    requires delim != "" && n < |s|
    ensures n < m <= |s|
  {
    var f := Find(delim, s, n);
    if f.None? then |s| else f.value + |delim|
  }

  /** The pieces of s between delimiters, from position n, without the empty ones. */
  function PiecesFrom(delim: string, s: string, n: nat): seq<string>
    requires delim != ""
    decreases |s| - n
  {
    if n >= |s| then [] else Head(delim, s, n) + PiecesFrom(delim, s, Next(delim, s, n))
  }

  function Pieces(delim: string, s: string): seq<string>
    requires delim != ""
  {
    PiecesFrom(delim, s, 0)
  }

  lemma Associative(a: seq<string>, b: seq<string>, c: seq<string>)
    ensures a + (b + c) == (a + b) + c
  {
  }

  lemma PiecesTurn(delim: string, s: string, n: nat, rv: seq<string>, rv': seq<string>)
    requires delim != "" && n < |s| && rv' == rv + Head(delim, s, n)
    ensures rv + PiecesFrom(delim, s, n) == rv' + PiecesFrom(delim, s, Next(delim, s, n))
  {
    Associative(rv, Head(delim, s, n), PiecesFrom(delim, s, Next(delim, s, n)));
  }

  /** The body of split's loop; without a delimiter it is the last turn. */
  method TakePiece(delim: string, s: string, n: nat, rv: seq<string>) returns (rv': seq<string>, n': nat)
    requires delim != "" && n < |s|
    ensures rv' == rv + Head(delim, s, n) && n' == Next(delim, s, n)
  {
    rv' := rv;
    var f := Find(delim, s, n);
    if f.None? {
      return rv + [s[n..]], |s|;
    }
    if f.value > n {
      rv' := rv + [s[n..f.value]];
    }
    n' := f.value + |delim|;
  }

  method Split(delim: string, s: string) returns (r: Result<seq<string>>)
    ensures r == if delim == "" then Err(InvalidArgument) else Ok(Pieces(delim, s))
  {
    if delim == "" {
      return Err(InvalidArgument);
    }
    var rv: seq<string>, n := [], 0;
    while n < |s|
      invariant 0 <= n <= |s|
      invariant rv + PiecesFrom(delim, s, n) == Pieces(delim, s)
    {
      var rv', n' := TakePiece(delim, s, n, rv);
      PiecesTurn(delim, s, n, rv, rv');
      rv, n := rv', n';
    }
    assert rv + [] == rv;
    r := Ok(rv);
  }

  lemma {:induction false} FindFirst(c: char, s: string, n: nat, f: nat)
    requires n <= f < |s| && s[f] == c && forall i :: n <= i < f ==> s[i] != c
    ensures Find([c], s, n) == Some(f)
    decreases f - n
  {
    assert s[n..n + 1] == [s[n]];
    if n < f { FindFirst(c, s, n + 1, f); }
  }

  lemma {:induction false} FindNone(c: char, s: string, n: nat)
    requires forall i :: n <= i < |s| ==> s[i] != c
    ensures Find([c], s, n) == None
    decreases |s| - n
  {
    if n < |s| {
      assert s[n..n + 1] == [s[n]];
      FindNone(c, s, n + 1);
    }
  }

  /** Text before the position does not matter. */
  lemma {:induction false} FindShift(delim: string, p: string, b: string, n: nat)
    requires delim != "" && n <= |b|
    ensures Find(delim, p + b, |p| + n) == match Find(delim, b, n) case None => None case Some(f) => Some(|p| + f)
    decreases |b| - n
  {
    if n + |delim| <= |b| {
      assert (p + b)[|p| + n..|p| + n + |delim|] == b[n..n + |delim|];
      if b[n..n + |delim|] != delim { FindShift(delim, p, b, n + 1); }
    }
  }

  lemma HeadShift(delim: string, p: string, b: string, n: nat)
    requires delim != "" && n < |b|
    ensures Head(delim, p + b, |p| + n) == Head(delim, b, n) && Next(delim, p + b, |p| + n) == |p| + Next(delim, b, n)
  {
    FindShift(delim, p, b, n);
    var f := Find(delim, b, n);
    if f.None? {
      assert (p + b)[|p| + n..] == b[n..];
    } else {
      assert (p + b)[|p| + n..|p| + f.value] == b[n..f.value];
    }
  }

  lemma {:induction false} PiecesShift(delim: string, p: string, b: string, s: string, n: nat)
    requires delim != "" && n <= |b| && s == p + b
    ensures PiecesFrom(delim, s, |p| + n) == PiecesFrom(delim, b, n)
    decreases |b| - n
  {
    if n < |b| {
      HeadShift(delim, p, b, n);
      var m := Next(delim, b, n);
      PiecesShift(delim, p, b, s, m);
      assert PiecesFrom(delim, s, |p| + n) == Head(delim, s, |p| + n) + PiecesFrom(delim, s, |p| + m);
    }
  }

  /** The first word comes off. */
  lemma PiecesStep(c: char, a: string, b: string)
    requires c !in a && a != ""
    ensures Pieces([c], a + [c] + b) == [a] + Pieces([c], b)
  {
    var p := a + [c];
    var s := p + b;
    FindFirst(c, s, 0, |a|);
    assert s[0..|a|] == a;
    PiecesShift([c], p, b, s, 0);
  }

  lemma PiecesLast(c: char, a: string)
    requires c !in a && a != ""
    ensures Pieces([c], a) == [a]
  {
    FindNone(c, a, 0);
    assert a[0..] == a && Head([c], a, 0) == [a] && PiecesFrom([c], a, |a|) == [];
  }

  function Without(c: char, s: string): string {
    if s == "" then "" else (if s[0] == c then "" else [s[0]]) + Without(c, s[1..])
  }

  function Joined(ws: seq<string>): string {
    if ws == [] then "" else ws[0] + Joined(ws[1..])
  }

  /** What split means: no piece is empty or has the delimiter, and together they are the text without it. */
  lemma {:induction false} PiecesMean(c: char, s: string, n: nat)
    requires n <= |s|
    ensures Joined(PiecesFrom([c], s, n)) == Without(c, s[n..])
    ensures forall w :: w in PiecesFrom([c], s, n) ==> w != "" && c !in w
    decreases |s| - n
  {
    if n < |s| {
      var head, next := Head([c], s, n), Next([c], s, n);
      PiecesMean(c, s, next);
      HeadMeans(c, s, n, head, next);
      JoinedPlus(head, PiecesFrom([c], s, next));
    }
  }

  lemma {:induction false} JoinedPlus(a: seq<string>, b: seq<string>)
    requires |a| <= 1
    ensures Joined(a + b) == Joined(a) + Joined(b)
  {
    if a == [] {
      assert a + b == b;
    } else {
      assert (a + b)[1..] == b && a[1..] == [];
    }
  }

  lemma JoinedOne(w: string)
    ensures Joined([w]) == w
  {
    assert [w][1..] == [] && w + "" == w;
  }

  lemma RestMeans(c: char, rest: string)
    requires c !in rest
    ensures Joined([rest]) + Without(c, "") == Without(c, rest)
  {
    JoinedOne(rest);
    WithoutNone(c, rest);
    assert rest + "" == rest;
  }

  lemma WordMeans(c: char, s: string, n: nat, f: nat)
    requires n <= f < |s| && s[f] == c && forall i :: n <= i < f ==> s[i] != c
    ensures Joined(if f > n then [s[n..f]] else []) + Without(c, s[f + 1..]) == Without(c, s[n..])
  {
    var a, b := s[n..f], s[f + 1..];
    WithoutStep(c, a, b);
    JoinedOne(a);
    assert s[n..] == a + [c] + b;
    assert f == n ==> a == "";
  }

  lemma HeadMeans(c: char, s: string, n: nat, head: seq<string>, next: nat)
    requires n < |s| && head == Head([c], s, n) && next == Next([c], s, n)
    ensures |head| <= 1 && Joined(head) + Without(c, s[next..]) == Without(c, s[n..])
    ensures forall w :: w in head ==> w != "" && c !in w
  {
    FindIsFirst(c, s, n);
    var f := Find([c], s, n);
    if f.None? {
      assert s[next..] == "";
      RestMeans(c, s[n..]);
    } else {
      WordMeans(c, s, n, f.value);
    }
  }

  lemma {:induction false} FindIsFirst(c: char, s: string, n: nat)
    requires n <= |s|
    ensures var f := Find([c], s, n);
            && (forall i :: n <= i < (if f.Some? then f.value else |s|) ==> s[i] != c)
            && (f.Some? ==> s[f.value] == c)
    decreases |s| - n
  {
    if n < |s| {
      assert s[n..n + 1] == [s[n]];
      FindIsFirst(c, s, n + 1);
    }
  }

  lemma {:induction false} WithoutNone(c: char, s: string)
    requires c !in s
    ensures Without(c, s) == s
  {
    if s != "" { WithoutNone(c, s[1..]); }
  }

  lemma {:induction false} WithoutStep(c: char, a: string, b: string)
    requires c !in a
    ensures Without(c, a + [c] + b) == a + Without(c, b)
  {
    var s := a + [c] + b;
    if a == "" {
      assert s[1..] == b;
    } else {
      assert s[1..] == a[1..] + [c] + b;
      WithoutStep(c, a[1..], b);
    }
  }

  // ----- Numbers

  predicate IsDigit(c: char) {
    '0' <= c <= '9'
  }

  /** The value of a digit in bases up to 16; 16 for anything else. */
  function DigitValue(c: char): nat {
    if '0' <= c <= '9' then (c - '0') as nat
    else if 'a' <= c <= 'f' then (c - 'a') as nat + 10
    else if 'A' <= c <= 'F' then (c - 'A') as nat + 10
    else 16
  }

  /** How many leading characters are digits in this base. */
  function DigitCount(base: nat, s: string): (n: nat)
    ensures n <= |s|
  {
    if s == "" || DigitValue(s[0]) >= base then 0 else 1 + DigitCount(base, s[1..])
  }

  function NumberOf(base: nat, s: string): nat {
    if s == "" then 0 else NumberOf(base, s[..|s| - 1]) * base + DigitValue(s[|s| - 1])
  }

  function SkipSpace(s: string): string {
    if s != "" && (s[0] == ' ' || '\t' <= s[0] <= '\r') then SkipSpace(s[1..]) else s
  }

  /** from_hex: stoull with base 0, which takes the base from the prefix, reads as many digits as there
      are, and negates modulo 2^64 after a minus sign. */
  function FromHex(s: string): Result<nat> {
    var t := SkipSpace(s);
    var negative := t != "" && t[0] == '-';
    var u := if t != "" && (t[0] == '-' || t[0] == '+') then t[1..] else t;
    var hex := |u| > 2 && u[0] == '0' && (u[1] == 'x' || u[1] == 'X') && DigitValue(u[2]) < 16;
    var base := if hex then 16 else if u != "" && u[0] == '0' then 8 else 10;
    var digits := if hex then u[2..] else u;
    var n := DigitCount(base, digits);
    if n == 0 then Err(InvalidArgument)
    else
      var value := NumberOf(base, digits[..n]);
      if value >= TWO64 then Err(OutOfRange)
      else Ok(if negative then (TWO64 - value) % TWO64 else value)
  }

  /** operator<< of an unsigned number. */
  function Decimal(n: nat): (s: string)
    ensures s != "" && (forall i :: 0 <= i < |s| ==> IsDigit(s[i])) && (s[0] == '0' <==> n == 0)
  {
    if n < 10 then ['0' + n as char] else Decimal(n / 10) + ['0' + (n % 10) as char]
  }

  /** operator<< of a signed number. */
  function SignedDecimal(n: int): string {
    if n < 0 then "-" + Decimal(-n) else Decimal(n)
  }

  lemma {:induction false} DigitsCount(s: string)
    requires forall i :: 0 <= i < |s| ==> IsDigit(s[i])
    ensures DigitCount(10, s) == |s|
  {
    if s != "" { DigitsCount(s[1..]); }
  }

  lemma {:induction false} DecimalIsNumber(n: nat)
    ensures NumberOf(10, Decimal(n)) == n
  {
    if n < 10 {
      assert Decimal(n)[..0] == "";
    } else {
      DecimalIsNumber(n / 10);
      var s := Decimal(n);
      assert s[..|s| - 1] == Decimal(n / 10);
    }
  }

  /** Reading undoes printing. */
  lemma DecimalReads(n: nat)
    requires n < TWO64
    ensures FromHex(Decimal(n)) == Ok(n)
  {
    var s := Decimal(n);
    assert IsDigit(s[0]) && SkipSpace(s) == s;
    if n == 0 {
      ZeroReads(s);
    } else {
      DigitsCount(s);
      DecimalIsNumber(n);
      assert s[..|s|] == s;
    }
  }

  /** A number that does not fit is refused. */
  lemma DecimalTooBig(n: nat)
    requires n >= TWO64
    ensures FromHex(Decimal(n)) == Err(OutOfRange)
  {
    var s := Decimal(n);
    assert IsDigit(s[0]) && SkipSpace(s) == s && s[0] != '0';
    DigitsCount(s);
    DecimalIsNumber(n);
    assert s[..|s|] == s;
  }

  /** What does not begin as a number is refused. */
  lemma NotANumber(s: string)
    requires s == "" || (!IsDigit(s[0]) && s[0] != '-' && s[0] != '+' && s[0] != ' ' && !('\t' <= s[0] <= '\r'))
    ensures FromHex(s) == Err(InvalidArgument)
  {
    assert SkipSpace(s) == s;
  }

  lemma ZeroReads(s: string)
    requires s == "0"
    ensures DigitCount(8, s) == 1 && NumberOf(8, s[..1]) == 0
  {
    assert s[1..] == "" && s[..1] == s && s[..0] == "";
  }

  // ----- to_hex

  function HexDigit(d: nat): (c: char)
    requires d < 16
    ensures DigitValue(c) == d
  {
    if d < 10 then '0' + d as char else 'a' + (d - 10) as char
  }

  function Hex(n: nat): (s: string)
    ensures s != "" && forall i :: 0 <= i < |s| ==> DigitValue(s[i]) < 16
  {
    if n < 16 then [HexDigit(n)] else Hex(n / 16) + [HexDigit(n % 16)]
  }

  function ToHex(n: nat): string {
    "0x" + Hex(n)
  }

  lemma {:induction false} HexCount(s: string)
    requires forall i :: 0 <= i < |s| ==> DigitValue(s[i]) < 16
    ensures DigitCount(16, s) == |s|
  {
    if s != "" { HexCount(s[1..]); }
  }

  lemma {:induction false} HexIsNumber(n: nat)
    ensures NumberOf(16, Hex(n)) == n
  {
    if n < 16 {
      assert Hex(n)[..0] == "";
    } else {
      HexIsNumber(n / 16);
      var s := Hex(n);
      assert s[..|s| - 1] == Hex(n / 16);
    }
  }

  /** from_hex undoes to_hex. */
  lemma HexReads(n: nat)
    requires n < TWO64
    ensures FromHex(ToHex(n)) == Ok(n)
  {
    var s, h := ToHex(n), Hex(n);
    assert s[0] == '0' && s[1] == 'x' && s[2..] == h && s[2] == h[0] && SkipSpace(s) == s;
    HexCount(h);
    HexIsNumber(n);
    assert h[..|h|] == h;
  }

  /** uint64_t to time_t. */
  function ToSigned(n: nat): int {
    if n < TWO64 / 2 then n else n - TWO64
  }

  lemma SignedDecimalReads(n: int)
    requires -(TWO64 / 2) <= n < TWO64 / 2
    ensures FromHex(SignedDecimal(n)).Ok? && ToSigned(FromHex(SignedDecimal(n)).value) == n
  {
    if n >= 0 {
      DecimalReads(n);
    } else {
      NegativeReads(-n, Decimal(-n));
    }
  }

  lemma NegativeReads(m: nat, d: string)
    requires 0 < m < TWO64 && d == Decimal(m)
    ensures FromHex("-" + d) == Ok(TWO64 - m)
  {
    var s := "-" + d;
    assert s[0] == '-' && s[1..] == d && SkipSpace(s) == s && d[0] != '0';
    DigitsCount(d);
    DecimalIsNumber(m);
    assert d[..|d|] == d;
  }

  // ----- The file

  /** BeesCrawlState */
  datatype CrawlState = CrawlState(root: nat, objectid: nat, offset: nat, minTransid: nat, maxTransid: nat, started: int)

  predicate Valid64(st: CrawlState) {
    && st.root < TWO64 && st.objectid < TWO64 && st.offset < TWO64 && st.minTransid < TWO64 && st.maxTransid < TWO64
    && -(TWO64 / 2) <= st.started < TWO64 / 2
  }

  function Field(key: string, value: string, rest: string): string {
    key + " " + value + " " + rest
  }

  /** The line of one crawl, without its newline; ts is the formatted start time. */
  function Body(st: CrawlState, ts: string): string {
    Field("root", Decimal(st.root), Field("objectid", Decimal(st.objectid), Field("offset", Decimal(st.offset),
      Field("min_transid", Decimal(st.minTransid), Field("max_transid", Decimal(st.maxTransid),
        Field("started", SignedDecimal(st.started), "start_ts" + " " + ts))))))
  }

  /** state_to_stream: crawls that never had a transid range are left out. */
  function Print(states: seq<CrawlState>, format: int -> string): string {
    if states == [] then ""
    else (if states[0].maxTransid != 0 then Body(states[0], format(states[0].started)) + "\n" else "") + Print(states[1..], format)
  }

  /** The key and value words of a line. */
  function ReadPairs(words: seq<string>, d: map<string, nat>): Result<map<string, nat>>
    decreases |words|
  {
    if words == [] then Ok(d)
    else if |words| == 1 then Err(OutOfRange)
    else
      var value := FromHex(words[1]);
      if value.Err? then Err(value.error)
      else if words[0] in d then Err(RuntimeError)
      else ReadPairs(words[2..], d[words[0] := value.value])
  }

  /** The words of a line, two by two: a name and what its number reads as. */
  function Pairs(words: seq<string>): (ps: seq<(string, Result<nat>)>) {
    if |words| < 2 then [] else [(words[0], FromHex(words[1]))] + Pairs(words[2..])
  }

  /** Every number can be read, no name is repeated, and none is in d. */
  ghost predicate GoodPairs(ps: seq<(string, Result<nat>)>, d: map<string, nat>) {
    && (forall i :: 0 <= i < |ps| ==> ps[i].1.Ok? && ps[i].0 !in d)
    && (forall i, j :: 0 <= i < j < |ps| ==> ps[i].0 != ps[j].0)
  }

  lemma GoodCons(p: (string, Result<nat>), rest: seq<(string, Result<nat>)>, d: map<string, nat>)
    requires p.1.Ok?
    ensures GoodPairs([p] + rest, d) <==> p.0 !in d && GoodPairs(rest, d[p.0 := p.1.value])
  {
    var ps := [p] + rest;
    assert forall i :: 0 <= i < |rest| ==> rest[i] == ps[i + 1];
    assert ps[0] == p;
    if GoodPairs(ps, d) {
      forall i | 0 <= i < |rest| ensures rest[i].1.Ok? && rest[i].0 !in d[p.0 := p.1.value] { assert ps[i + 1] == rest[i]; }
    }
  }

  /** The words of a line are read exactly if they come in such pairs. */
  lemma {:induction false} PairsReadIff(words: seq<string>, d: map<string, nat>)
    ensures ReadPairs(words, d).Ok? <==> |words| % 2 == 0 && GoodPairs(Pairs(words), d)
    decreases |words|
  {
    if |words| >= 2 {
      var p, rest := (words[0], FromHex(words[1])), Pairs(words[2..]);
      assert ([p] + rest)[0] == p;
      if p.1.Ok? {
        GoodCons(p, rest, d);
        PairsReadIff(words[2..], d[p.0 := p.1.value]);
      }
    }
  }

  /** Then every name has its number, and there are no other names. */
  lemma {:induction false} PairsAreRead(words: seq<string>, d: map<string, nat>)
    requires ReadPairs(words, d).Ok?
    ensures var r, ps := ReadPairs(words, d).value, Pairs(words);
            && (forall p :: p in ps ==> p.0 in r && p.1 == Ok(r[p.0]))
            && (forall k :: k in d ==> k in r && r[k] == d[k])
            && r.Keys == d.Keys + (set p | p in ps :: p.0)
    decreases |words|
  {
    if |words| >= 2 {
      var p := (words[0], FromHex(words[1]));
      PairsAreRead(words[2..], d[p.0 := p.1.value]);
      var r, ps, rest := ReadPairs(words, d).value, Pairs(words), Pairs(words[2..]);
      assert p.0 in r && r[p.0] == p.1.value;
      assert forall q :: q in ps <==> q == p || q in rest;
    }
  }

  function FromPairs(d: map<string, nat>, now: int): (r: Result<CrawlState>)
    ensures r.Ok? <==> "root" in d && "objectid" in d && "offset" in d
                       && ("gen_current" in d || "min_transid" in d) && ("gen_next" in d || "max_transid" in d)
    ensures r.Err? ==> r.error == OutOfRange
  {
    if "root" !in d || "objectid" !in d || "offset" !in d || ("gen_current" !in d && "min_transid" !in d)
       || ("gen_next" !in d && "max_transid" !in d) then Err(OutOfRange)
    else
      var low := if "gen_current" in d then d["gen_current"] else d["min_transid"];
      var high := if "gen_next" in d then d["gen_next"] else d["max_transid"];
      var started := if "started" in d then ToSigned(d["started"]) else now;
      Ok(Repaired(CrawlState(d["root"], d["objectid"], d["offset"], low, high, started)))
  }

  /** Transids that were never set are replaced. */
  function Repaired(st: CrawlState): CrawlState {
    var low := if st.minTransid == MAX64 then 0 else st.minTransid;
    st.(minTransid := low, maxTransid := if st.maxTransid == MAX64 then low else st.maxTransid)
  }

  function LoadLine(line: string, now: int): Result<CrawlState> {
    var d := ReadPairs(Pieces(" ", line), map[]);
    if d.Err? then Err(d.error) else FromPairs(d.value, now)
  }

  /** The crawls loaded, and the exception that ended the loading, if any. */
  datatype Loaded = Loaded(states: seq<CrawlState>, error: Option<Error>)

  function LoadLines(lines: seq<string>, now: int): Loaded {
    if lines == [] then Loaded([], None)
    else
      var first := LoadLine(lines[0], now);
      if first.Err? then Loaded([], Some(first.error))
      else
        var rest := LoadLines(lines[1..], now);
        Loaded([first.value] + rest.states, rest.error)
  }

  function Load(data: string, now: int): Loaded {
    LoadLines(Pieces("\n", data), now)
  }

  // ----- One line

  lemma FieldIs(key: string, value: string, rest: string)
    ensures Field(key, value, rest) == key + [' '] + (value + [' '] + rest)
  {
  }

  lemma FieldPieces(key: string, value: string, rest: string)
    requires key != "" && value != "" && ' ' !in key && ' ' !in value
    ensures Pieces(" ", Field(key, value, rest)) == [key, value] + Pieces(" ", rest)
  {
    FieldIs(key, value, rest);
    PiecesStep(' ', key, value + [' '] + rest);
    PiecesStep(' ', value, rest);
  }

  lemma PairCons(key: string, value: string, more: seq<string>, d: map<string, nat>)
    requires key !in d && FromHex(value).Ok?
    ensures ReadPairs([key, value] + more, d) == ReadPairs(more, d[key := FromHex(value).value])
  {
    var words := [key, value] + more;
    assert words[2..] == more;
  }

  lemma ReadField(key: string, value: string, rest: string, d: map<string, nat>)
    requires key != "" && value != "" && ' ' !in key && ' ' !in value && key !in d && FromHex(value).Ok?
    ensures ReadPairs(Pieces(" ", Field(key, value, rest)), d) == ReadPairs(Pieces(" ", rest), d[key := FromHex(value).value])
  {
    FieldPieces(key, value, rest);
    PairCons(key, value, Pieces(" ", rest), d);
  }

  predicate TimestampOk(ts: string) {
    ts != "" && ' ' !in ts && '\n' !in ts && FromHex(ts).Ok?
  }

  lemma {:induction false} DigitsStop(s: string, rest: string)
    requires (forall i :: 0 <= i < |s| ==> IsDigit(s[i])) && rest != "" && DigitValue(rest[0]) >= 10
    ensures DigitCount(10, s + rest) == |s|
  {
    if s == "" {
      assert s + rest == rest;
    } else {
      assert (s + rest)[1..] == s[1..] + rest;
      DigitsStop(s[1..], rest);
    }
  }

  /** Digits and a dash after them are read up to the dash; the first digit is not a zero. */
  lemma YearIsRead(year: nat, rest: string)
    requires 0 < year < TWO64
    ensures FromHex(Decimal(year) + ("-" + rest)) == Ok(year)
  {
    var y := Decimal(year);
    var s := y + ("-" + rest);
    assert s[0] == y[0] && IsDigit(y[0]) && y[0] != '0' && SkipSpace(s) == s;
    DigitsStop(y, "-" + rest);
    DecimalIsNumber(year);
    assert s[..|y|] == y;
  }

  // ----- The start time

  /** struct tm, with the year and the month as they are printed. */
  datatype Tm = Tm(year: int, month: nat, day: nat, hour: nat, minute: nat, second: nat)

  /** tm_year is an int that counts from 1900. */
  predicate ValidTm(tm: Tm) {
    -0x8000_0000 + 1900 <= tm.year < 0x8000_0000 + 1900
  }

  function Zeros(n: nat): string {
    seq(n, _ => '0')
  }

  /** %Y: the C libraries differ in the width the year is padded to. */
  function YearText(width: nat, year: int): string {
    var digits := Decimal(if year < 0 then -year else year);
    (if year < 0 then "-" else "") + (if |digits| < width then Zeros(width - |digits|) + digits else digits)
  }

  /** %m, %d, %H, %M and %S, each after a dash. */
  function TwoDigits(n: nat): string {
    ['-', '0' + (n / 10 % 10) as char, '0' + (n % 10) as char]
  }

  function AfterYear(tm: Tm): string {
    TwoDigits(tm.month) + TwoDigits(tm.day) + TwoDigits(tm.hour) + TwoDigits(tm.minute) + TwoDigits(tm.second)
  }

  /** format_time: %Y-%m-%d-%H-%M-%S */
  function FormatTime(width: nat, tm: Tm): string {
    YearText(width, tm.year) + AfterYear(tm)
  }

  predicate AllDigits(s: string) {
    forall i :: 0 <= i < |s| ==> IsDigit(s[i])
  }

  function Pow10(n: nat): (r: nat)
    ensures r >= 1
  {
    if n == 0 then 1 else 10 * Pow10(n - 1)
  }

  lemma TenDigits()
    ensures Pow10(10) == 10_000_000_000
  {
    assert Pow10(3) == 1000;
    assert Pow10(6) == 1000_000;
    assert Pow10(9) == 1000_000_000;
  }

  lemma {:induction false} Pow10Grows(m: nat, n: nat)
    requires m <= n
    ensures Pow10(m) <= Pow10(n)
  {
    if m < n { Pow10Grows(m, n - 1); }
  }

  lemma {:induction false} DecimalLength(n: nat, k: nat)
    requires k >= 1 && n < Pow10(k)
    ensures |Decimal(n)| <= k
  {
    if n >= 10 { DecimalLength(n / 10, k - 1); }
  }

  /** Digits of a base up to ten are a number less than that power of ten. */
  lemma {:induction false} NumberBound(base: nat, s: string)
    requires base <= 10 && forall i :: 0 <= i < |s| ==> DigitValue(s[i]) < base
    ensures NumberOf(base, s) < Pow10(|s|)
  {
    if s != "" {
      var front := s[..|s| - 1];
      NumberBound(base, front);
      NextDigit(base, NumberOf(base, front), Pow10(|front|), DigitValue(s[|s| - 1]));
    }
  }

  lemma NextDigit(base: nat, n: nat, p: nat, d: nat)
    requires base <= 10 && n < p && d < base
    ensures n * base + d < 10 * p
  {
    assert n * base <= n * 10;
  }

  lemma {:induction false} CountStops(base: nat, d: string, rest: string)
    requires base <= 10 && AllDigits(d) && rest != "" && rest[0] == '-'
    ensures var n := DigitCount(base, d + rest);
            n <= |d| && forall i :: 0 <= i < n ==> DigitValue((d + rest)[i]) < base
  {
    var s := d + rest;
    if d != "" && DigitValue(s[0]) < base {
      assert s[1..] == d[1..] + rest;
      CountStops(base, d[1..], rest);
      var n := DigitCount(base, s);
      forall i | 0 <= i < n ensures DigitValue(s[i]) < base {
        assert i > 0 ==> s[i] == s[1..][i - 1];
      }
    }
  }

  /** The number that stoull finds fits. */
  lemma DigitsFit(base: nat, d: string, rest: string)
    requires 0 < |d| <= 10 && AllDigits(d) && rest != "" && rest[0] == '-' && base == if d[0] == '0' then 8 else 10
    ensures var n := DigitCount(base, d + rest); n > 0 && NumberOf(base, (d + rest)[..n]) < TWO64
  {
    var u := d + rest;
    CountStops(base, d, rest);
    var n := DigitCount(base, u);
    assert u[0] == d[0] && IsDigit(d[0]);
    NumberBound(base, u[..n]);
    Pow10Grows(n, 10);
    TenDigits();
  }

  /** Up to ten digits, with or without leading zeros, followed by a dash are read without error. */
  lemma DigitsAreRead(d: string, rest: string, u: string)
    requires 0 < |d| <= 10 && AllDigits(d) && rest != "" && rest[0] == '-' && u == d + rest
    ensures FromHex(u).Ok?
  {
    DigitsFit(if d[0] == '0' then 8 else 10, d, rest);
    assert u[0] == d[0] && IsDigit(u[0]) && SkipSpace(u) == u;
    assert if |d| > 1 then u[1] == d[1] && IsDigit(u[1]) else u[1] == '-';
  }

  lemma NegativeIsRead(d: string, rest: string, u: string, t: string)
    requires 0 < |d| <= 10 && AllDigits(d) && rest != "" && rest[0] == '-' && u == d + rest && t == "-" + u
    ensures FromHex(t).Ok?
  {
    DigitsFit(if d[0] == '0' then 8 else 10, d, rest);
    assert u[0] == d[0] && IsDigit(u[0]) && t[0] == '-' && SkipSpace(t) == t && t[1..] == u;
    assert if |d| > 1 then u[1] == d[1] && IsDigit(u[1]) else u[1] == '-';
  }

  predicate Stamp(s: string) {
    forall i :: 0 <= i < |s| ==> IsDigit(s[i]) || s[i] == '-'
  }

  lemma StampIsWord(a: string, b: string, ts: string)
    requires Stamp(a) && Stamp(b) && a != "" && ts == a + b
    ensures ts != "" && ' ' !in ts && '\n' !in ts
  {
    assert Stamp(ts);
  }

  lemma AfterYearIsStamp(tm: Tm)
    ensures Stamp(AfterYear(tm)) && AfterYear(tm) != "" && AfterYear(tm)[0] == '-'
  {
    assert Stamp(TwoDigits(tm.month)) && Stamp(TwoDigits(tm.day)) && Stamp(TwoDigits(tm.hour));
    assert Stamp(TwoDigits(tm.minute)) && Stamp(TwoDigits(tm.second));
  }

  lemma YearIsShort(width: nat, year: int)
    requires width <= 10 && -0x8000_0000 + 1900 <= year < 0x8000_0000 + 1900
    ensures var y := YearText(width, year); var d := if year < 0 then y[1..] else y;
            0 < |d| <= 10 && AllDigits(d) && y == (if year < 0 then "-" + d else d)
  {
    TenDigits();
    DecimalLength(if year < 0 then -year else year, 10);
    var y := YearText(width, year);
    assert year >= 0 ==> "" + y == y;
  }

  lemma SignedIsWord(y: string, d: string, rest: string)
    requires 0 < |d| <= 10 && AllDigits(d) && (y == d || y == "-" + d) && Stamp(rest) && rest != "" && rest[0] == '-'
    ensures TimestampOk(y + rest)
  {
    var ts := y + rest;
    assert Stamp(y);
    StampIsWord(y, rest, ts);
    if y == d {
      DigitsAreRead(d, rest, ts);
    } else {
      assert ts == "-" + (d + rest);
      NegativeIsRead(d, rest, d + rest, ts);
    }
  }

  /** What format_time prints can be read as a word of the file. */
  lemma FormatTimeReads(width: nat, tm: Tm)
    requires width <= 10 && ValidTm(tm)
    ensures TimestampOk(FormatTime(width, tm))
  {
    var y := YearText(width, tm.year);
    YearIsShort(width, tm.year);
    AfterYearIsStamp(tm);
    SignedIsWord(y, if tm.year < 0 then y[1..] else y, AfterYear(tm));
  }

  /** It is read as the year, if the year is after the year 0 and needs no padding. */
  lemma FormatTimeIsYear(width: nat, tm: Tm)
    requires ValidTm(tm) && tm.year > 0 && |Decimal(tm.year)| >= width
    ensures FromHex(FormatTime(width, tm)) == Ok(tm.year)
  {
    var rest := AfterYear(tm);
    AfterYearIsStamp(tm);
    assert rest == "-" + rest[1..] && YearText(width, tm.year) == Decimal(tm.year);
    YearIsRead(tm.year, rest[1..]);
  }

  lemma ReadLast(ts: string, d: map<string, nat>)
    requires TimestampOk(ts) && "start_ts" !in d
    ensures ReadPairs(Pieces(" ", "start_ts" + " " + ts), d) == Ok(d["start_ts" := FromHex(ts).value])
  {
    PiecesStep(' ', "start_ts", ts);
    PiecesLast(' ', ts);
    PairCons("start_ts", ts, [], d);
    assert ["start_ts"] + [ts] == ["start_ts", ts] + [];
  }

  lemma NumbersHaveNo(c: char, n: nat)
    requires !IsDigit(c)
    ensures c !in Decimal(n)
  {
  }

  lemma SignedHasNo(c: char, n: int)
    requires !IsDigit(c) && c != '-'
    ensures c !in SignedDecimal(n)
  {
    NumbersHaveNo(c, if n < 0 then -n else n);
  }

  lemma ReadNumber(key: string, n: nat, rest: string, d: map<string, nat>)
    requires key != "" && ' ' !in key && key !in d && n < TWO64
    ensures ReadPairs(Pieces(" ", Field(key, Decimal(n), rest)), d) == ReadPairs(Pieces(" ", rest), d[key := n])
  {
    DecimalReads(n);
    NumbersHaveNo(' ', n);
    ReadField(key, Decimal(n), rest, d);
  }

  function Place(st: CrawlState): map<string, nat> {
    map["root" := st.root, "objectid" := st.objectid, "offset" := st.offset]
  }

  function Range(st: CrawlState, d: map<string, nat>): map<string, nat> {
    d["min_transid" := st.minTransid]["max_transid" := st.maxTransid]
  }

  function Start(started: nat, ts: nat, d: map<string, nat>): map<string, nat> {
    d["started" := started]["start_ts" := ts]
  }

  lemma ReadPlace(st: CrawlState, rest: string)
    requires Valid64(st)
    ensures ReadPairs(Pieces(" ", Field("root", Decimal(st.root), Field("objectid", Decimal(st.objectid), Field("offset", Decimal(st.offset), rest)))), map[])
            == ReadPairs(Pieces(" ", rest), Place(st))
  {
    var third := Field("offset", Decimal(st.offset), rest);
    var second := Field("objectid", Decimal(st.objectid), third);
    var d1: map<string, nat> := map["root" := st.root];
    var d2 := d1["objectid" := st.objectid];
    assert map[]["root" := st.root] == d1 && d2["offset" := st.offset] == Place(st);
    ReadNumber("root", st.root, second, map[]);
    ReadNumber("objectid", st.objectid, third, d1);
    ReadNumber("offset", st.offset, rest, d2);
  }

  lemma ReadRange(st: CrawlState, rest: string, d: map<string, nat>)
    requires Valid64(st) && "min_transid" !in d && "max_transid" !in d
    ensures ReadPairs(Pieces(" ", Field("min_transid", Decimal(st.minTransid), Field("max_transid", Decimal(st.maxTransid), rest))), d)
            == ReadPairs(Pieces(" ", rest), Range(st, d))
  {
    assert "min_transid"[1] != "max_transid"[1];
    ReadNumber("min_transid", st.minTransid, Field("max_transid", Decimal(st.maxTransid), rest), d);
    ReadNumber("max_transid", st.maxTransid, rest, d["min_transid" := st.minTransid]);
  }

  lemma ReadStart(st: CrawlState, ts: string, d: map<string, nat>)
    requires Valid64(st) && TimestampOk(ts) && "started" !in d && "start_ts" !in d
    ensures FromHex(SignedDecimal(st.started)).Ok? && FromHex(ts).Ok?
    ensures ReadPairs(Pieces(" ", Field("started", SignedDecimal(st.started), "start_ts" + " " + ts)), d)
            == Ok(Start(FromHex(SignedDecimal(st.started)).value, FromHex(ts).value, d))
  {
    SignedDecimalReads(st.started);
    SignedHasNo(' ', st.started);
    ReadField("started", SignedDecimal(st.started), "start_ts" + " " + ts, d);
    ReadLast(ts, d["started" := FromHex(SignedDecimal(st.started)).value]);
  }

  /** No two names on a line are equal, and none is a legacy name. */
  lemma NamesDiffer(st: CrawlState, started: nat, ts: nat)
    ensures "min_transid" !in Place(st) && "max_transid" !in Place(st)
    ensures "started" !in Range(st, Place(st)) && "start_ts" !in Range(st, Place(st))
    ensures var d := Start(started, ts, Range(st, Place(st)));
            && "gen_current" !in d && "gen_next" !in d
            && "root" in d && d["root"] == st.root && "objectid" in d && d["objectid"] == st.objectid
            && "offset" in d && d["offset"] == st.offset && "min_transid" in d && d["min_transid"] == st.minTransid
            && "max_transid" in d && d["max_transid"] == st.maxTransid && "started" in d && d["started"] == started
  {
    assert "min_transid"[1] != "max_transid"[1] && "gen_current"[0] != "min_transid"[0] && "gen_current"[0] != "max_transid"[0];
    assert "gen_next"[0] != "objectid"[0] && "gen_next"[0] != "start_ts"[0] && "start_ts"[0] != "objectid"[0];
  }

  /** A printed line loads as the state it was printed from, unless a transid was never set. */
  lemma LineRoundTrip(st: CrawlState, ts: string, now: int)
    requires Valid64(st) && TimestampOk(ts)
    ensures LoadLine(Body(st, ts), now) == Ok(Repaired(st))
  {
    var last := Field("started", SignedDecimal(st.started), "start_ts" + " " + ts);
    var middle := Field("min_transid", Decimal(st.minTransid), Field("max_transid", Decimal(st.maxTransid), last));
    SignedDecimalReads(st.started);
    var started := FromHex(SignedDecimal(st.started)).value;
    NamesDiffer(st, started, FromHex(ts).value);
    ReadPlace(st, middle);
    ReadRange(st, last, Place(st));
    ReadStart(st, ts, Range(st, Place(st)));
  }

  // ----- The whole file

  lemma FieldHasNo(c: char, key: string, value: string, rest: string)
    requires c != ' ' && c !in key && c !in value && c !in rest
    ensures c !in Field(key, value, rest)
  {
  }

  lemma BodyIsOneLine(st: CrawlState, ts: string)
    requires TimestampOk(ts)
    ensures '\n' !in Body(st, ts) && Body(st, ts) != ""
  {
    var last := "start_ts" + " " + ts;
    SignedHasNo('\n', st.started);
    FieldHasNo('\n', "started", SignedDecimal(st.started), last);
    var f5 := Field("started", SignedDecimal(st.started), last);
    NumbersHaveNo('\n', st.maxTransid);
    FieldHasNo('\n', "max_transid", Decimal(st.maxTransid), f5);
    var f4 := Field("max_transid", Decimal(st.maxTransid), f5);
    NumbersHaveNo('\n', st.minTransid);
    FieldHasNo('\n', "min_transid", Decimal(st.minTransid), f4);
    var f3 := Field("min_transid", Decimal(st.minTransid), f4);
    NumbersHaveNo('\n', st.offset);
    FieldHasNo('\n', "offset", Decimal(st.offset), f3);
    var f2 := Field("offset", Decimal(st.offset), f3);
    NumbersHaveNo('\n', st.objectid);
    FieldHasNo('\n', "objectid", Decimal(st.objectid), f2);
    NumbersHaveNo('\n', st.root);
    FieldHasNo('\n', "root", Decimal(st.root), Field("objectid", Decimal(st.objectid), f2));
  }

  /** The states that loading gives back. */
  function Restored(states: seq<CrawlState>): seq<CrawlState> {
    if states == [] then [] else (if states[0].maxTransid != 0 then [Repaired(states[0])] else []) + Restored(states[1..])
  }

  /** Loading what was saved restores every crawl that has a transid range, in order and without error. */
  lemma {:induction false} LoadUndoesPrint(states: seq<CrawlState>, format: int -> string, now: int)
    requires forall st :: st in states ==> Valid64(st) && TimestampOk(format(st.started))
    ensures Load(Print(states, format), now) == Loaded(Restored(states), None)
    decreases |states|
  {
    if states != [] {
      var st, rest := states[0], states[1..];
      LoadUndoesPrint(rest, format, now);
      if st.maxTransid != 0 {
        var ts := format(st.started);
        BodyIsOneLine(st, ts);
        LineRoundTrip(st, ts, now);
        FirstLine(Body(st, ts), Print(rest, format), now);
      } else {
        assert "" + Print(rest, format) == Print(rest, format);
        assert [] + Restored(rest) == Restored(rest);
      }
    }
  }

  /** The same with the start times that format_time prints, for any time zone. */
  lemma FileRoundTrip(states: seq<CrawlState>, localtime: int -> Tm, width: nat, now: int)
    requires width <= 10 && forall st :: st in states ==> Valid64(st) && ValidTm(localtime(st.started))
    ensures Load(Print(states, t => FormatTime(width, localtime(t))), now) == Loaded(Restored(states), None)
  {
    var format := t => FormatTime(width, localtime(t));
    forall st | st in states ensures TimestampOk(format(st.started)) {
      FormatTimeReads(width, localtime(st.started));
    }
    LoadUndoesPrint(states, format, now);
  }

  lemma FirstLine(line: string, rest: string, now: int)
    requires line != "" && '\n' !in line && LoadLine(line, now).Ok? && Load(rest, now).error == None
    ensures Load(line + "\n" + rest, now) == Loaded([LoadLine(line, now).value] + Load(rest, now).states, None)
  {
    PiecesStep('\n', line, rest);
    assert ([line] + Pieces("\n", rest))[1..] == Pieces("\n", rest);
  }

  /** A state comes back unchanged exactly if neither transid is the 64-bit maximum; none is afterwards, and
      a range that was never set is empty. */
  lemma RestoredUnchangedIff(st: CrawlState)
    requires Valid64(st)
    ensures Repaired(st) == st <==> st.minTransid != MAX64 && st.maxTransid != MAX64
    ensures Repaired(st).minTransid != MAX64 && Repaired(st).maxTransid != MAX64
    ensures st.minTransid == MAX64 ==> Repaired(st).minTransid == 0
    ensures st.maxTransid == MAX64 ==> Repaired(st).maxTransid == Repaired(st).minTransid
    ensures Repaired(st) == st.(minTransid := Repaired(st).minTransid, maxTransid := Repaired(st).maxTransid)
  {
  }

  /** A file with the old names of the transids, or without a start time, loads in the same way. */
  lemma OldNamesLoad(st: CrawlState, d: map<string, nat>, now: int)
    requires Valid64(st) && "started" !in d
    requires "root" in d && d["root"] == st.root && "objectid" in d && d["objectid"] == st.objectid && "offset" in d && d["offset"] == st.offset
    requires "gen_current" in d && d["gen_current"] == st.minTransid && "gen_next" in d && d["gen_next"] == st.maxTransid
    ensures FromPairs(d, now) == Ok(Repaired(st.(started := now)))
  {
  }

  // ----- The loops

  lemma AppendField(out: string, key: string, value: string, rest: string)
    ensures (out + key + " " + value + " ") + rest == out + Field(key, value, rest)
  {
  }

  method PrintLine(out: string, st: CrawlState, ts: string) returns (out': string)
    ensures out' == out + Body(st, ts)
  {
    ghost var last := "start_ts" + " " + ts;
    ghost var f5 := Field("started", SignedDecimal(st.started), last);
    ghost var f4 := Field("max_transid", Decimal(st.maxTransid), f5);
    ghost var f3 := Field("min_transid", Decimal(st.minTransid), f4);
    ghost var f2 := Field("offset", Decimal(st.offset), f3);
    ghost var f1 := Field("objectid", Decimal(st.objectid), f2);
    out' := PrintField(out, "root", Decimal(st.root), f1);
    out' := PrintField(out', "objectid", Decimal(st.objectid), f2);
    out' := PrintField(out', "offset", Decimal(st.offset), f3);
    out' := PrintField(out', "min_transid", Decimal(st.minTransid), f4);
    out' := PrintField(out', "max_transid", Decimal(st.maxTransid), f5);
    out' := PrintField(out', "started", SignedDecimal(st.started), last);
    out' := out' + ("start_ts" + " " + ts);
  }

  method PrintField(out: string, key: string, value: string, ghost rest: string) returns (out': string)
    ensures out' + rest == out + Field(key, value, rest)
  {
    AppendField(out, key, value, rest);
    out' := out + key + " " + value + " ";
  }

  lemma PrintTurn(out: string, states: seq<CrawlState>, i: nat, format: int -> string)
    requires i < |states|
    ensures var st := states[i];
            out + Print(states[i..], format)
            == (if st.maxTransid != 0 then out + Body(st, format(st.started)) + "\n" else out) + Print(states[i + 1..], format)
  {
    var st, rest := states[i], Print(states[i + 1..], format);
    assert states[i..][1..] == states[i + 1..];
    if st.maxTransid != 0 {
      Regroup(out, Body(st, format(st.started)), "\n", rest);
    } else {
      assert "" + rest == rest;
    }
  }

  lemma Regroup(a: string, b: string, c: string, d: string)
    ensures a + ((b + c) + d) == ((a + b) + c) + d
  {
  }

  method StateToStream(states: seq<CrawlState>, format: int -> string) returns (out: string)
    ensures out == Print(states, format)
  {
    out := "";
    assert states[0..] == states;
    for i := 0 to |states|
      invariant out + Print(states[i..], format) == Print(states, format)
    {
      PrintTurn(out, states, i, format);
      if states[i].maxTransid != 0 {
        out := PrintLine(out, states[i], format(states[i].started));
        out := out + "\n";
      }
    }
    assert out + "" == out;
  }

  method LoadWords(words: seq<string>) returns (r: Result<map<string, nat>>)
    ensures r == ReadPairs(words, map[])
  {
    var d: map<string, nat>, it := map[], 0;
    assert words[0..] == words;
    while it < |words|
      invariant 0 <= it <= |words|
      invariant ReadPairs(words, map[]) == ReadPairs(words[it..], d)
    {
      if it + 1 >= |words| {
        return Err(OutOfRange);
      }
      var key, value := words[it], FromHex(words[it + 1]);
      if value.Err? {
        return Err(value.error);
      }
      if key in d {
        return Err(RuntimeError);
      }
      assert words[it..][2..] == words[it + 2..];
      d, it := d[key := value.value], it + 2;
    }
    r := Ok(d);
  }

  lemma LoadTurn(lines: seq<string>, i: nat, states: seq<CrawlState>, now: int)
    requires i < |lines| && LoadLine(lines[i], now).Ok?
    ensures var one := LoadLine(lines[i], now).value;
            && states + LoadLines(lines[i..], now).states == (states + [one]) + LoadLines(lines[i + 1..], now).states
            && LoadLines(lines[i..], now).error == LoadLines(lines[i + 1..], now).error
  {
    assert lines[i..][1..] == lines[i + 1..];
  }

  /** insert_root: a crawl that exists is kept. */
  function InsertRoot(crawls: map<nat, CrawlState>, st: CrawlState): map<nat, CrawlState> {
    if st.root in crawls then crawls else crawls[st.root := st]
  }

  function InsertRoots(crawls: map<nat, CrawlState>, states: seq<CrawlState>): map<nat, CrawlState>
    decreases |states|
  {
    if states == [] then crawls else InsertRoots(InsertRoot(crawls, states[0]), states[1..])
  }

  function FirstOf(states: seq<CrawlState>, root: nat): Option<CrawlState> {
    if states == [] then None else if states[0].root == root then Some(states[0]) else FirstOf(states[1..], root)
  }

  function Get(crawls: map<nat, CrawlState>, root: nat): Option<CrawlState> {
    if root in crawls then Some(crawls[root]) else None
  }

  /** A crawl that was there stays as it was; for another root the first line counts. */
  lemma {:induction false} FirstLineCounts(crawls: map<nat, CrawlState>, states: seq<CrawlState>, root: nat)
    ensures Get(InsertRoots(crawls, states), root) == if root in crawls then Some(crawls[root]) else FirstOf(states, root)
    decreases |states|
  {
    if states != [] { FirstLineCounts(InsertRoot(crawls, states[0]), states[1..], root); }
  }

  predicate DistinctRoots(states: seq<CrawlState>) {
    forall i, j :: 0 <= i < j < |states| ==> states[i].root != states[j].root
  }

  /** The crawls of a map are saved in order of their roots, each root once. */
  lemma {:induction false} FirstRestored(states: seq<CrawlState>, root: nat)
    requires DistinctRoots(states)
    ensures FirstOf(Restored(states), root)
            == match FirstOf(states, root)
               case None => None
               case Some(st) => if st.maxTransid != 0 then Some(Repaired(st)) else None
    decreases |states|
  {
    if states != [] {
      var st, rest := states[0], states[1..];
      FirstRestored(rest, root);
      if st.root == root { NoneLeft(rest, root); }
      if st.maxTransid != 0 {
        assert ([Repaired(st)] + Restored(rest))[1..] == Restored(rest);
      } else {
        assert [] + Restored(rest) == Restored(rest);
      }
    }
  }

  lemma {:induction false} NoneLeft(states: seq<CrawlState>, root: nat)
    requires forall i :: 0 <= i < |states| ==> states[i].root != root
    ensures FirstOf(states, root) == None
  {
    if states != [] { NoneLeft(states[1..], root); }
  }

  /** Saving the crawl map and loading it into an empty one gives back exactly the crawls with a transid
      range, each under its root. */
  lemma MapRoundTrip(states: seq<CrawlState>, localtime: int -> Tm, width: nat, now: int, root: nat)
    requires width <= 10 && DistinctRoots(states)
    requires forall st :: st in states ==> Valid64(st) && ValidTm(localtime(st.started))
    ensures Get(InsertRoots(map[], Load(Print(states, t => FormatTime(width, localtime(t))), now).states), root)
            == match FirstOf(states, root)
               case None => None
               case Some(st) => if st.maxTransid != 0 then Some(Repaired(st)) else None
  {
    FileRoundTrip(states, localtime, width, now);
    FirstLineCounts(map[], Restored(states), root);
    FirstRestored(states, root);
  }

  lemma {:induction false} InsertLast(crawls: map<nat, CrawlState>, states: seq<CrawlState>, st: CrawlState)
    ensures InsertRoots(crawls, states + [st]) == InsertRoot(InsertRoots(crawls, states), st)
    decreases |states|
  {
    var all := states + [st];
    if states == [] {
      assert all[1..] == [];
    } else {
      assert all[1..] == states[1..] + [st];
      InsertLast(InsertRoot(crawls, states[0]), states[1..], st);
    }
  }

  class BeesRoots {
    var crawls: map<nat, CrawlState>

    constructor ()
      ensures crawls == map[]
    {
      crawls := map[];
    }

    method Insert(st: CrawlState)
      modifies this
      ensures crawls == InsertRoot(old(crawls), st)
    {
      if st.root !in crawls {
        crawls := crawls[st.root := st];
      }
    }

    /** state_load; when it throws, the crawls of the lines before stay in the map. */
    method StateLoad(data: string, now: int) returns (error: Option<Error>)
      modifies this
      ensures error == Load(data, now).error
      ensures crawls == InsertRoots(old(crawls), Load(data, now).states)
    {
      var lines := Split("\n", data);
      ghost var all, states: seq<CrawlState> := lines.value, [];
      assert all[0..] == all;
      for i := 0 to |lines.value|
        invariant crawls == InsertRoots(old(crawls), states)
        invariant Load(data, now) == Loaded(states + LoadLines(all[i..], now).states, LoadLines(all[i..], now).error)
      {
        var words := Split(" ", lines.value[i]);
        var d := LoadWords(words.value);
        var one := if d.Err? then Err(d.error) else FromPairs(d.value, now);
        assert one == LoadLine(all[i], now);
        if one.Err? {
          assert states + [] == states;
          return Some(one.error);
        }
        LoadTurn(all, i, states, now);
        InsertLast(old(crawls), states, one.value);
        Insert(one.value);
        states := states + [one.value];
      }
      assert states + [] == states;
      error := None;
    }
  }
}
