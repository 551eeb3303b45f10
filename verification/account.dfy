/** Player accounts. The only account kind is the offline account, whose user name and unique
    id are prefixed with the kind name and a colon. */
module Account {
  import opened JavaStrings

  const OFFLINE: string := "offline"
  /** `Long.MAX_VALUE`: the exclusive bound of the random number drawn for a new id. */
  const LONG_MAX: int := 0x7fff_ffff_ffff_ffff

  datatype Account = Account(username: string, uniqueId: string)

  /** `type() + ':'`. */
  function Prefix(): (r: string)
    ensures |r| == |OFFLINE| + 1 && r[|OFFLINE|] == ':'
  {
    OFFLINE + [':']
  }

  /** `displayName()`: the user name with every occurrence of the prefix removed. */
  function DisplayName(a: Account): (r: string)
    ensures |r| <= |a.username|
    ensures !Contains(a.username, Prefix()) ==> r == a.username
    ensures forall rest :: a.username == Prefix() + rest ==> r == RemoveAll(rest, Prefix())
  {
    RemoveAllAbsentIf(a.username, Prefix());
    RemoveAll(a.username, Prefix())
  }

  function DigitChar(d: int): char
    requires 0 <= d < 10
  {
    ['0', '1', '2', '3', '4', '5', '6', '7', '8', '9'][d]
  }

  predicate IsDigit(c: char) { '0' <= c <= '9' }

  /** `Long.toString` of a non-negative value: its decimal digits, without leading zeros. */
  function Decimal(n: nat): (r: string)
    ensures |r| >= 1 && forall i :: 0 <= i < |r| ==> IsDigit(r[i])
    ensures |r| > 1 ==> r[0] != '0'
  {
    if n < 10 then [DigitChar(n)]
    else Decimal(n / 10) + [DigitChar(n % 10)]
  }

  /** The value of a string of decimal digits. */
  function ParseDecimal(s: string): nat
    requires forall i :: 0 <= i < |s| ==> IsDigit(s[i])
  {
    if |s| == 0 then 0
    else
      assert IsDigit(s[|s| - 1]);
      ParseDecimal(s[..|s| - 1]) * 10 + (s[|s| - 1] as int - '0' as int)
  }

  lemma {:induction false} ParseDecimalOfDecimal(n: nat)
    ensures ParseDecimal(Decimal(n)) == n
  {
    if n >= 10 {
      var s := Decimal(n);
      assert s[..|s| - 1] == Decimal(n / 10);
      ParseDecimalOfDecimal(n / 10);
    }
  }

  /** `OfflineAccount.create(username)`: `random` stands for the number drawn from
      `ThreadLocalRandom.nextLong(Long.MAX_VALUE)`. */
  function Create(name: string, random: int): (a: Account)
    requires 0 <= random < LONG_MAX
    ensures |a.username| == |Prefix()| + |name| && a.username[..|Prefix()|] == Prefix() && a.username[|Prefix()|..] == name
    ensures |a.uniqueId| > |Prefix()| && a.uniqueId[..|Prefix()|] == Prefix()
    ensures a.uniqueId == Prefix() + Decimal(random)
  {
    Account(Prefix() + name, Prefix() + Decimal(random))
  }

  /** Two created accounts share a unique id exactly when they were given the same random
      number. */
  lemma CreateUniqueIdInjective(n1: string, r1: int, n2: string, r2: int)
    requires 0 <= r1 < LONG_MAX && 0 <= r2 < LONG_MAX
    ensures Create(n1, r1).uniqueId == Create(n2, r2).uniqueId <==> r1 == r2
  {
    if Create(n1, r1).uniqueId == Create(n2, r2).uniqueId {
      assert Create(n1, r1).uniqueId[|Prefix()|..] == Decimal(r1);
      assert Create(n2, r2).uniqueId[|Prefix()|..] == Decimal(r2);
      ParseDecimalOfDecimal(r1);
      ParseDecimalOfDecimal(r2);
    }
  }

  /** The display name of a created account is the name it was created with, as long as
      that name does not itself contain the prefix. */
  lemma CreateDisplayName(name: string, random: int)
    requires 0 <= random < LONG_MAX
    requires !Contains(name, Prefix())
    ensures DisplayName(Create(name, random)) == name
  {
    RemoveAllPrefix(Prefix(), name);
    RemoveAllAbsent(name, Prefix());
  }

  /** `replace` scans once: removing the prefix from "offoffline:line:" joins its two halves
      into a new occurrence, which stays in the display name. */
  lemma DisplayNameSingleScan(uniqueId: string)
    ensures DisplayName(Account("offoffline:line:", uniqueId)) == Prefix()
    ensures Contains(DisplayName(Account("offoffline:line:", uniqueId)), Prefix())
  {
    OffHasNoPrefix();
    RemoveAllAfter("off", Prefix(), "line:");
    LineHasNoPrefix();
    RemoveAllAbsent("line:", Prefix());
    assert "off" + "line:" == Prefix();
    assert OccursAt(Prefix(), Prefix(), 0);
  }

  /** No occurrence of the prefix starts inside the leading "off". */
  lemma OffHasNoPrefix()
    ensures "offoffline:line:" == "off" + Prefix() + "line:"
    ensures forall i :: 0 <= i < |"off"| ==> !OccursAt("off" + Prefix() + "line:", Prefix(), i)
  {
    var p := Prefix();
    assert p == "offline:";
    var s := "off" + p + "line:";
    assert s == "offoffline:line:";
    assert s[0..8][3] != p[3];
    assert s[1..9][0] != p[0];
    assert s[2..10][0] != p[0];
  }

  lemma LineHasNoPrefix()
    ensures !Contains("line:", Prefix())
  {
    forall i: nat | i <= 5 ensures !OccursAt("line:", Prefix(), i) {}
  }

  /** A name that repeats the prefix loses it as well: the display name of an account
      created as "offline:bob" is "bob". */
  lemma CreateDisplayNameStripsRepeatedPrefix(random: int)
    requires 0 <= random < LONG_MAX
    ensures DisplayName(Create(Prefix() + "bob", random)) == "bob"
  {
    RemoveAllPrefix(Prefix(), Prefix() + "bob");
    RemoveAllPrefix(Prefix(), "bob");
    assert !Contains("bob", Prefix());
    RemoveAllAbsent("bob", Prefix());
  }
}
