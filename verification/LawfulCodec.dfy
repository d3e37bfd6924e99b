/** The laws that are asked of the time layout and the front matter can be met: some codec is lawful. */
module LawfulCodec {
  import opened Text
  import opened SessionTypes

  // ----- Writing numbers as tallies -----

  function Tally(n: nat): string {
    seq(n, _ => 'a') + "b"
  }

  function Tallies(numbers: seq<nat>): string {
    if numbers == [] then "" else Tally(numbers[0]) + Tallies(numbers[1..])
  }

  lemma {:induction false} FirstTally(m: nat, s: string, n: nat, t: string)
    requires Tally(m) + s == Tally(n) + t
    ensures m == n && s == t
  {
    var front, back := seq(m, _ => 'a'), seq(n, _ => 'a');
    CutAt(front, "b", s);
    CutAt(back, "b", t);
    assert front + "b" + s == back + "b" + t;
  }

  /** Tallies can be read back. */
  lemma {:induction false} TalliesDiffer(a: seq<nat>, b: seq<nat>)
    requires Tallies(a) == Tallies(b)
    ensures a == b
  {
    if a != [] && b != [] {
      FirstTally(a[0], Tallies(a[1..]), b[0], Tallies(b[1..]));
      TalliesDiffer(a[1..], b[1..]);
      assert a == [a[0]] + a[1..] && b == [b[0]] + b[1..];
    }
  }

  lemma {:induction false} TallyLetters(numbers: seq<nat>)
    ensures forall c :: c in Tallies(numbers) ==> c == 'a' || c == 'b'
  {
    if numbers != [] {
      TallyLetters(numbers[1..]);
    }
  }

  // ----- Records as numbers -----

  function Natural(i: int): nat {
    if i >= 0 then 2 * i else -2 * i - 1
  }

  function Codes(s: string): (r: seq<nat>)
    ensures |r| == |s| && forall i :: 0 <= i < |s| ==> r[i] == s[i] as int
  {
    seq(|s|, i requires 0 <= i < |s| => s[i] as int)
  }

  function StatusNumber(s: Status): nat {
    match s case Active => 0 case Compressing => 1 case Sealed => 2
  }

  function Fixed(r: Record): (f: seq<nat>)
    ensures |f| == 9
  {
    [r.seqNo, StatusNumber(r.status), Natural(r.startEvent), Natural(r.endEvent), Natural(r.eventCount),
     Natural(r.tokenCount), Natural(r.createdAt), if r.sealedAt.Some? then 1 else 0,
     if r.sealedAt.Some? then Natural(r.sealedAt.value) else 0]
  }

  function Measured(s: string): seq<nat> {
    [|s|] + Codes(s)
  }

  function Numbers(r: Record): seq<nat> {
    Fixed(r) + (Measured(r.id) + (Measured(r.threadId) + Measured(r.summary)))
  }

  lemma {:induction false} CodesDiffer(s: string, t: string)
    requires Codes(s) == Codes(t)
    ensures s == t
  {
    assert |s| == |Codes(s)| == |t|;
    forall i | 0 <= i < |s| ensures s[i] == t[i] {
      assert Codes(s)[i] == Codes(t)[i];
    }
  }

  lemma {:induction false} FirstMeasured(s: string, a: seq<nat>, t: string, b: seq<nat>)
    requires Measured(s) + a == Measured(t) + b
    ensures s == t && a == b
  {
    var u := Measured(s) + a;
    assert u[0] == |s| && u[0] == |t|;
    assert u[1..|s| + 1] == Codes(s) && u[1..|t| + 1] == Codes(t);
    CodesDiffer(s, t);
    assert u[|s| + 1..] == a && u[|t| + 1..] == b;
  }

  lemma {:induction false} FirstFixed(r: Record, a: seq<nat>, q: Record, b: seq<nat>)
    requires Fixed(r) + a == Fixed(q) + b
    ensures Fixed(r) == Fixed(q) && a == b
  {
    var u := Fixed(r) + a;
    assert u[..9] == Fixed(r) && u[..9] == Fixed(q);
    assert u[9..] == a && u[9..] == b;
  }

  lemma {:induction false} FixedDiffer(r: Record, q: Record)
    requires Fixed(r) == Fixed(q)
    ensures r == q.(id := r.id, threadId := r.threadId, summary := r.summary)
  {
    var f, g := Fixed(r), Fixed(q);
    assert f[0] == g[0] && f[1] == g[1] && f[2] == g[2] && f[3] == g[3] && f[4] == g[4];
    assert f[5] == g[5] && f[6] == g[6] && f[7] == g[7] && f[8] == g[8];
  }

  lemma {:induction false} NumbersDiffer(r: Record, q: Record)
    requires Numbers(r) == Numbers(q)
    ensures r == q
  {
    FirstFixed(r, Measured(r.id) + (Measured(r.threadId) + Measured(r.summary)),
               q, Measured(q.id) + (Measured(q.threadId) + Measured(q.summary)));
    FirstMeasured(r.id, Measured(r.threadId) + Measured(r.summary), q.id, Measured(q.threadId) + Measured(q.summary));
    FirstMeasured(r.threadId, Measured(r.summary), q.threadId, Measured(q.summary));
    assert Measured(r.summary) + [] == Measured(r.summary) && Measured(q.summary) + [] == Measured(q.summary);
    FirstMeasured(r.summary, [], q.summary, []);
    FixedDiffer(r, q);
  }

  // ----- The codec -----

  function FormatTime(t: Time): string {
    Tally(Natural(WholeSeconds(t)))
  }

  ghost function ParseTime(s: string): Option<Time> {
    if exists t :: FormatTime(t) == s then
      var t :| FormatTime(t) == s;
      Some(WholeSeconds(t))
    else None
  }

  function EncodeFront(r: Record): string {
    Tallies(Numbers(NormalRecord(r))) + "\n"
  }

  ghost function DecodeFront(s: string): Option<Record> {
    if exists r :: EncodeFront(r) == s + "\n" then
      var r :| EncodeFront(r) == s + "\n";
      Some(NormalRecord(r))
    else None
  }

  lemma {:induction false} TimeIsReadBack(t: Time)
    ensures ParseTime(FormatTime(t)) == Some(WholeSeconds(t))
    ensures ']' !in FormatTime(t) && '\n' !in FormatTime(t)
  {
    var s := FormatTime(t);
    var u :| FormatTime(u) == s && ParseTime(s) == Some(WholeSeconds(u));
    assert FormatTime(t) + "" == FormatTime(u) + "";
    FirstTally(Natural(WholeSeconds(t)), "", Natural(WholeSeconds(u)), "");
  }

  lemma {:induction false} FrontIsReadBack(r: Record)
    ensures var d := EncodeFront(r);
            FrontMatter(d) && DecodeFront(d[..|d| - 1]) == Some(NormalRecord(r))
  {
    var d, text := EncodeFront(r), Tallies(Numbers(NormalRecord(r)));
    TallyLetters(Numbers(NormalRecord(r)));
    assert '\n' !in text;
    LinesOfOne(text);
    LinesOfConcat(text, "");
    assert text + "\n" + "" == d;
    assert "---"[0] == '-' && text != "---";
    assert d[..|d| - 1] == text;
    var q :| EncodeFront(q) == text + "\n" && DecodeFront(text) == Some(NormalRecord(q));
    assert EncodeFront(q)[..|d| - 1] == Tallies(Numbers(NormalRecord(q)));
    TalliesDiffer(Numbers(NormalRecord(r)), Numbers(NormalRecord(q)));
    NumbersDiffer(NormalRecord(r), NormalRecord(q));
  }

  /** So whatever is proved of every lawful codec is not proved of nothing. */
  lemma {:induction false} SomeCodecIsLawful()
    ensures exists codec: Codec :: Lawful(codec)
  {
    var codec := Codec(t => FormatTime(t), s => ParseTime(s), t => FormatTime(t), r => EncodeFront(r), s => DecodeFront(s));
    forall t: Time
      ensures codec.parseTime(codec.formatTime(t)) == Some(WholeSeconds(t))
              && ']' !in codec.formatTime(t) && '\n' !in codec.formatTime(t)
    {
      TimeIsReadBack(t);
    }
    forall r: Record
      ensures var d := codec.encodeFront(r);
              FrontMatter(d) && codec.decodeFront(d[..|d| - 1]) == Some(NormalRecord(r))
    {
      FrontIsReadBack(r);
    }
    assert Lawful(codec);
  }
}
