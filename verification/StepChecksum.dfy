/** migrationChecksum (migration.cpp:123-146): the material of a step checksum is uniquely decodable. */
module StepChecksum {
  import opened Wrappers
  import opened Decimal
  import opened Sha256Standard
  import opened Sha256

  datatype Phase = Precheck | Expand | Backfill | Switch | Cleanup

  datatype Execution = Check | AtomicDdl | TransactionalDml

  function PhaseName(phase: Phase): string {
    match phase
    case Precheck => "precheck"
    case Expand => "expand"
    case Backfill => "backfill"
    case Switch => "switch"
    case Cleanup => "cleanup"
  }

  function ExecutionName(execution: Execution): string {
    match execution
    case Check => "check"
    case AtomicDdl => "atomic_ddl"
    case TransactionalDml => "transactional_dml"
  }

  datatype Content = Content(id: string, phase: Phase, execution: Execution, apply: string, verify: string)

  function Fields(c: Content): seq<string> {
    [c.id, PhaseName(c.phase), ExecutionName(c.execution), c.apply, c.verify]
  }

  /** One field: its length in decimal, a colon, the text itself. */
  function Field(value: string): string {
    Numeral(|value|) + (":" + value)
  }

  function Join(fields: seq<string>): string {
    if fields == [] then "" else Field(fields[0]) + Join(fields[1..])
  }

  function Material(c: Content): string {
    Join(Fields(c))
  }

  /** The leading digits of a text. */
  function DigitsOf(s: string): (d: string)
    ensures d <= s && AllDigits(d)
  {
    if s == "" || !IsDigit(s[0]) then "" else [s[0]] + DigitsOf(s[1..])
  }

  /** Reads one field back: the field and what follows it. */
  function ReadField(s: string): (r: Option<(string, string)>)
    ensures r.Some? ==> |r.value.1| < |s|
  {
    var d := DigitsOf(s);
    var rest := s[|d|..];
    if ":" <= rest && Value(d) < |rest| then
      Some((rest[1..Value(d) + 1], rest[Value(d) + 1..]))
    else None
  }

  function Split(s: string): Option<seq<string>>
    decreases |s|
  {
    if s == "" then Some([])
    else
      match ReadField(s)
      case None => None
      case Some((field, rest)) =>
        match Split(rest)
        case None => None
        case Some(fields) => Some([field] + fields)
  }

  lemma {:induction false} DigitsOfNumeral(n: string, s: string)
    requires AllDigits(n) && ":" <= s
    ensures DigitsOf(n + s) == n
  {
    if n == "" {
      assert n + s == s;
    } else {
      assert (n + s)[1..] == n[1..] + s;
      DigitsOfNumeral(n[1..], s);
    }
  }

  lemma FieldReadsBack(value: string, rest: string)
    ensures ReadField(Field(value) + rest) == Some((value, rest))
  {
    var n, tail := Numeral(|value|), ":" + value + rest;
    assert Field(value) + rest == n + tail;
    DigitsOfNumeral(n, tail);
    assert (n + tail)[|n|..] == tail;
    assert tail[1..|value| + 1] == value && tail[|value| + 1..] == rest;
  }

  /** Splitting undoes joining, for any number of fields with any contents. */
  lemma {:induction false} JoinSplits(fields: seq<string>)
    ensures Split(Join(fields)) == Some(fields)
    decreases |fields|
  {
    if fields != [] {
      var rest := Join(fields[1..]);
      FieldReadsBack(fields[0], rest);
      JoinSplits(fields[1..]);
      assert Join(fields) == Field(fields[0]) + rest && |Field(fields[0])| > 0;
      assert [fields[0]] + fields[1..] == fields;
    }
  }

  /** What is hashed of a step, and in which order. */
  lemma MaterialReads(c: Content)
    ensures
      var phase := match c.phase
        case Precheck => "precheck"
        case Expand => "expand"
        case Backfill => "backfill"
        case Switch => "switch"
        case Cleanup => "cleanup";
      var execution := match c.execution
        case Check => "check"
        case AtomicDdl => "atomic_ddl"
        case TransactionalDml => "transactional_dml";
      Split(Material(c)) == Some([c.id, phase, execution, c.apply, c.verify]) &&
      Material(c) ==
        Numeral(|c.id|) + (":" + c.id) + (Numeral(|phase|) + (":" + phase) + (
        Numeral(|execution|) + (":" + execution) + (
        Numeral(|c.apply|) + (":" + c.apply) + (Numeral(|c.verify|) + (":" + c.verify)))))
  {
    hide Numeral, Split, Join, Field;
    JoinSplits(Fields(c));
    FiveFields(c.id, PhaseName(c.phase), ExecutionName(c.execution), c.apply, c.verify);
  }

  lemma FiveFields(a: string, b: string, c: string, d: string, e: string)
    ensures
      Join([a, b, c, d, e]) ==
        Numeral(|a|) + (":" + a) + (Numeral(|b|) + (":" + b) + (Numeral(|c|) + (":" + c) + (
        Numeral(|d|) + (":" + d) + (Numeral(|e|) + (":" + e)))))
  {
    hide Join, Numeral;
    assert Join([e]) == Numeral(|e|) + (":" + e) by {
      OneMoreField([], e);
      EmptyJoin();
    }
    OneMoreField([e], d);
    OneMoreField([d, e], c);
    OneMoreField([c, d, e], b);
    OneMoreField([b, c, d, e], a);
    assert [a] + [b, c, d, e] == [a, b, c, d, e] && [b] + [c, d, e] == [b, c, d, e];
    assert [c] + [d, e] == [c, d, e] && [d] + [e] == [d, e] && [e] + [] == [e];
  }

  lemma OneMoreField(fields: seq<string>, value: string)
    ensures Join([value] + fields) == Numeral(|value|) + (":" + value) + Join(fields)
  {
    assert ([value] + fields)[1..] == fields;
  }

  lemma NamesDistinct(c: Content, d: Content)
    requires Fields(c) == Fields(d)
    ensures c == d
  {
    var f, g := Fields(c), Fields(d);
    assert f[0] == g[0] && f[1] == g[1] && f[2] == g[2] && f[3] == g[3] && f[4] == g[4];
    assert |f[1]| == |g[1]| && |f[2]| == |g[2]|;
    assert f[1][0] == g[1][0];
  }

  /** Different steps have different material. */
  lemma MaterialInjective(c: Content, d: Content)
    requires Material(c) == Material(d)
    ensures c == d
  {
    JoinSplits(Fields(c));
    JoinSplits(Fields(d));
    NamesDistinct(c, d);
  }

  /** Text of single-byte characters, and its bytes. */
  predicate ByteText(s: string) {
    forall i :: 0 <= i < |s| ==> s[i] as int < 256
  }

  function Bytes(s: string): seq<Byte> {
    seq(|s|, i requires 0 <= i < |s| => (s[i] as int % 256) as Byte)
  }

  lemma BytesInjective(s: string, t: string)
    requires ByteText(s) && ByteText(t) && Bytes(s) == Bytes(t)
    ensures s == t
  {
    assert |Bytes(s)| == |s| && |Bytes(t)| == |t|;
    forall i | 0 <= i < |s| ensures s[i] == t[i] {
      assert Bytes(s)[i] == Bytes(t)[i];
    }
  }

  function Checksum(c: Content): string {
    DigestText(Bytes(Material(c)))
  }

  /** Equal checksums mean equal steps, or two different byte strings with the same SHA-256 digest. */
  lemma EqualChecksums(c: Content, d: Content)
    requires ByteText(Material(c)) && ByteText(Material(d)) && Checksum(c) == Checksum(d)
    ensures c == d || (Bytes(Material(c)) != Bytes(Material(d)) &&
                       Digest(Bytes(Material(c))) == Digest(Bytes(Material(d))))
  {
    var x, y := Bytes(Material(c)), Bytes(Material(d));
    if c != d {
      if x == y {
        BytesInjective(Material(c), Material(d));
        MaterialInjective(c, d);
      }
      SameTextSameDigest(x, y);
    }
  }

  lemma SameTextSameDigest(x: seq<Byte>, y: seq<Byte>)
    requires DigestText(x) == DigestText(y)
    ensures Digest(x) == Digest(y)
  {
    hide Digest, HexWords, HexValue;
    DigestTextDecodes(x);
    DigestTextDecodes(y);
    var v, w := Words(Digest(x)), Words(Digest(y));
    forall k | 0 <= k < 8 ensures v[k] == w[k] {
      WordReadsBack(v[k]);
      WordReadsBack(w[k]);
      assert v[k] as int == w[k] as int;
    }
    assert Digest(x).a == v[0] && Digest(x).b == v[1] && Digest(x).c == v[2] && Digest(x).d == v[3];
    assert Digest(x).e == v[4] && Digest(x).f == v[5] && Digest(x).g == v[6] && Digest(x).h == v[7];
  }

  lemma WordReadsBack(w: Word)
    ensures (w as int) as Word == w
  {
  }

  lemma {:induction false} JoinAppends(fields: seq<string>, value: string)
    ensures Join(fields + [value]) == Join(fields) + Field(value)
    decreases |fields|
  {
    var all := fields + [value];
    if fields == [] {
      assert all[1..] == [];
    } else {
      assert all[1..] == fields[1..] + [value];
      JoinAppends(fields[1..], value);
    }
  }

  method MigrationChecksum(c: Content) returns (text: string)
    ensures |Material(c)| < 0x2000_0000_0000_0000 ==> text == Checksum(c)
  {
    hide Join, DigestText;
    var material := "";
    var fields := Fields(c);
    EmptyJoin();
    for i := 0 to |fields|
      invariant material == Join(fields[..i])
    {
      JoinAppends(fields[..i], fields[i]);
      assert fields[..i] + [fields[i]] == fields[..i + 1];
      material := material + Numeral(|fields[i]|) + (":" + fields[i]);
    }
    assert fields[..|fields|] == fields;
    text := Sha256Hex(Bytes(material));
  }

  lemma EmptyJoin()
    ensures Join([]) == ""
  {
  }
}
