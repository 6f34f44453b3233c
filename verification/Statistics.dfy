/** struct stats as bytes, and the copy of bytes to user memory. */
module Statistics {
  import opened Ticks
  import opened Memory

  // ---------------------------------------------------------------- layout

  /** A 32-bit word in memory, least significant byte first. */
  function WordBytes(x: word): (r: seq<Byte>)
    ensures |r| == 4
  {
    [(x % 0x100) as Byte, (x / 0x100 % 0x100) as Byte, (x / 0x1_0000 % 0x100) as Byte, (x / 0x100_0000 % 0x100) as Byte]
  }

  function WordOf(b: seq<Byte>): (x: word)
    requires |b| == 4
  {
    b[0] as int + b[1] as int * 0x100 + b[2] as int * 0x1_0000 + b[3] as int * 0x100_0000
  }

  lemma WordRoundTrip(x: word)
    ensures WordOf(WordBytes(x)) == x
  {
  }

  /** sizeof(struct stats) */
  const STATS_SIZE: nat := 28

  function Encode(s: Stats): (r: seq<Byte>)
    ensures |r| == STATS_SIZE
  {
    WordBytes(s.user) + WordBytes(s.system) + WordBytes(s.blocked) + WordBytes(s.ready)
    + WordBytes(s.elapsed) + WordBytes(s.trans) + WordBytes(s.remaining)
  }

  /** The fields in the order of the declaration. */
  function Field(s: Stats, k: nat): word
    requires k < 7
  {
    [s.user, s.system, s.blocked, s.ready, s.elapsed, s.trans, s.remaining][k]
  }

  /** Field k stands at offset 4 * k, least significant byte first: its bytes, weighted, are its value. */
  lemma FieldAt(s: Stats, k: nat)
    requires k < 7
    ensures var b, o := Encode(s), 4 * k;
      o + 3 < |b|
      && b[o] as int + b[o + 1] as int * 0x100 + b[o + 2] as int * 0x1_0000 + b[o + 3] as int * 0x100_0000
          == Field(s, k)
  {
    WordRoundTrip(Field(s, k));
    assert Encode(s)[4 * k..4 * k + 4] == WordBytes(Field(s, k));
  }

  /** What a user program finds in a struct stats. */
  function Decode(b: seq<Byte>): Stats
    requires |b| == STATS_SIZE
  {
    Stats(WordOf(b[0..4]), WordOf(b[4..8]), WordOf(b[8..12]), WordOf(b[12..16]),
          WordOf(b[16..20]), WordOf(b[20..24]), WordOf(b[24..28]))
  }

  lemma StatsRoundTrip(s: Stats)
    ensures Decode(Encode(s)) == s
  {
    var b := Encode(s);
    assert b[0..4] == WordBytes(s.user) && b[4..8] == WordBytes(s.system) && b[8..12] == WordBytes(s.blocked);
    assert b[12..16] == WordBytes(s.ready) && b[16..20] == WordBytes(s.elapsed);
    assert b[20..24] == WordBytes(s.trans) && b[24..28] == WordBytes(s.remaining);
    WordRoundTrip(s.user);
    WordRoundTrip(s.system);
    WordRoundTrip(s.blocked);
    WordRoundTrip(s.ready);
    WordRoundTrip(s.elapsed);
    WordRoundTrip(s.trans);
    WordRoundTrip(s.remaining);
  }
}
