/** The two text formats of src/main.rs: the thousands-separated rendering of
    the wallet count (lines 77-84, repeated at 192-199) and the framing of the
    output file as a JSON array (lines 172-180). */
module Format {
  import opened Text
  import opened WalletTypes

  // ---------------------------------------------------------------------
  // Sequences of strings

  /** `.rev()`. */
  function Reverse<T>(xs: seq<T>): (r: seq<T>)
    ensures |r| == |xs|
  {
    if xs == [] then [] else Reverse(xs[1..]) + [xs[0]]
  }

  lemma {:induction false} ReverseAt<T>(xs: seq<T>, i: nat)
    requires i < |xs|
    ensures Reverse(xs)[i] == xs[|xs| - 1 - i]
  {
    if i < |xs| - 1 {
      ReverseAt(xs[1..], i);
    }
  }

  /** The strings of `parts` written one after another. */
  function Concat(parts: seq<string>): string {
    if parts == [] then [] else Concat(parts[..|parts| - 1]) + parts[|parts| - 1]
  }

  /** `.join(sep)`: the parts with `sep` between neighbours. */
  function Join(parts: seq<string>, sep: string): string {
    if |parts| == 0 then []
    else if |parts| == 1 then parts[0]
    else Join(parts[..|parts| - 1], sep) + sep + parts[|parts| - 1]
  }

  /** The number of occurrences of `c` in `s`. */
  function CountChar(c: char, s: string): nat {
    if s == [] then 0 else CountChar(c, s[..|s| - 1]) + (if s[|s| - 1] == c then 1 else 0)
  }

  lemma {:induction false} CountCharAppend(c: char, s: string, t: string)
    ensures CountChar(c, s + t) == CountChar(c, s) + CountChar(c, t)
  {
    if t != [] {
      assert (s + t)[..|s + t| - 1] == s + t[..|t| - 1];
      CountCharAppend(c, s, t[..|t| - 1]);
    } else {
      assert s + t == s;
    }
  }

  /** `s` with every comma deleted. */
  function RemoveCommas(s: string): string {
    if s == [] then [] else RemoveCommas(s[..|s| - 1]) + (if s[|s| - 1] == ',' then [] else [s[|s| - 1]])
  }

  lemma {:induction false} RemoveCommasAppend(s: string, t: string)
    ensures RemoveCommas(s + t) == RemoveCommas(s) + RemoveCommas(t)
  {
    if t != [] {
      assert (s + t)[..|s + t| - 1] == s + t[..|t| - 1];
      RemoveCommasAppend(s, t[..|t| - 1]);
    } else {
      assert s + t == s;
    }
  }

  lemma {:induction false} RemoveCommasOfDigits(s: string)
    requires IsDigits(s)
    ensures RemoveCommas(s) == s
  {
    if s != [] {
      RemoveCommasOfDigits(s[..|s| - 1]);
    }
  }

  // ---------------------------------------------------------------------
  // Thousands separators

  /** `.rchunks(3)`: chunks of at most three characters taken from the right,
      rightmost chunk first; only the leftmost chunk can be shorter. */
  function RChunks(s: string): seq<string>
    decreases |s|
  {
    if |s| == 0 then []
    else if |s| <= 3 then [s]
    else [s[|s| - 3..]] + RChunks(s[..|s| - 3])
  }

  /** The digit groups of `n`, most significant first. */
  function DigitGroups(n: nat): seq<string> {
    Reverse(RChunks(NatToDecimal(n)))
  }

  /** `n.to_string().as_bytes().rchunks(3).rev()...join(",")`. */
  function GroupThousands(n: nat): string {
    Join(DigitGroups(n), ",")
  }

  lemma {:induction false} RChunksSizes(s: string)
    requires s != []
    ensures var cs := RChunks(s);
      |cs| >= 1 &&
      (forall i :: 0 <= i < |cs| - 1 ==> |cs[i]| == 3) &&
      1 <= |cs[|cs| - 1]| <= 3
    decreases |s|
  {
    if |s| > 3 {
      RChunksSizes(s[..|s| - 3]);
    }
  }

  lemma {:induction false} RChunksDigits(s: string)
    requires IsDigits(s)
    ensures forall i :: 0 <= i < |RChunks(s)| ==> IsDigits(RChunks(s)[i])
    decreases |s|
  {
    if |s| > 3 {
      RChunksDigits(s[..|s| - 3]);
    }
  }

  lemma {:induction false} RChunksConcat(s: string)
    ensures Concat(Reverse(RChunks(s))) == s
    decreases |s|
  {
    if |s| == 0 {
    } else if |s| <= 3 {
      assert Reverse([s]) == [s];
      assert Concat([s]) == Concat([]) + s;
    } else {
      var head, rest := s[|s| - 3..], s[..|s| - 3];
      RChunksConcat(rest);
      var r := Reverse(RChunks(rest));
      assert Reverse(RChunks(s)) == r + [head];
      assert (r + [head])[..|r + [head]| - 1] == r;
      assert s == rest + head;
    }
  }

  /** The groups: at least one; the first holds one to three digits, every
      other exactly three; together they spell the plain decimal. */
  lemma DigitGroupsShape(n: nat)
    ensures var gs := DigitGroups(n);
      |gs| >= 1 &&
      1 <= |gs[0]| <= 3 &&
      (forall i :: 1 <= i < |gs| ==> |gs[i]| == 3) &&
      (forall i :: 0 <= i < |gs| ==> IsDigits(gs[i])) &&
      Concat(gs) == NatToDecimal(n)
  {
    var cs := RChunks(NatToDecimal(n));
    var gs := DigitGroups(n);
    RChunksSizes(NatToDecimal(n));
    NatToDecimalDigits(n);
    RChunksDigits(NatToDecimal(n));
    RChunksConcat(NatToDecimal(n));
    forall i | 0 <= i < |gs|
      ensures gs[i] == cs[|cs| - 1 - i]
    {
      ReverseAt(cs, i);
    }
  }

  lemma {:induction false} RemoveCommasJoin(parts: seq<string>)
    requires forall i :: 0 <= i < |parts| ==> IsDigits(parts[i])
    ensures RemoveCommas(Join(parts, ",")) == Concat(parts)
  {
    if |parts| == 1 {
      RemoveCommasOfDigits(parts[0]);
      assert Concat(parts) == Concat([]) + parts[0];
    } else if |parts| > 1 {
      var init, last := parts[..|parts| - 1], parts[|parts| - 1];
      RemoveCommasJoin(init);
      RemoveCommasAppend(Join(init, ",") + ",", last);
      RemoveCommasAppend(Join(init, ","), ",");
      RemoveCommasOfDigits(last);
      assert RemoveCommas(",") == [];
    }
  }

  /** Deleting the separators gives back the plain decimal rendering. */
  lemma GroupThousandsRemoveCommas(n: nat)
    ensures RemoveCommas(GroupThousands(n)) == NatToDecimal(n)
  {
    DigitGroupsShape(n);
    RemoveCommasJoin(DigitGroups(n));
  }

  // ---------------------------------------------------------------------
  // JSON array framing

  /** The array elements as written: a newline and two spaces, then the wallet's JSON. */
  function Entries(wallets: seq<Wallet>, toJson: Wallet -> string): (es: seq<string>)
    ensures |es| == |wallets|
  {
    if wallets == [] then []
    else Entries(wallets[..|wallets| - 1], toJson) + ["\n  " + toJson(wallets[|wallets| - 1])]
  }

  /** What lines 172-180 write: `[`, then for each wallet a `,` when it is not
      the first, `\n  ` and its JSON, then `\n]`. */
  function JsonArrayBody(wallets: seq<Wallet>, toJson: Wallet -> string): string {
    if wallets == [] then []
    else JsonArrayBody(wallets[..|wallets| - 1], toJson)
         + (if |wallets| > 1 then "," else "")
         + "\n  " + toJson(wallets[|wallets| - 1])
  }

  function JsonArray(wallets: seq<Wallet>, toJson: Wallet -> string): string {
    "[" + JsonArrayBody(wallets, toJson) + "\n]"
  }

  /** The loop's output is `[`, the entries joined by commas, then `\n]`;
      no wallets give `[\n]`. */
  lemma {:induction false} JsonArrayIsJoin(wallets: seq<Wallet>, toJson: Wallet -> string)
    ensures JsonArrayBody(wallets, toJson) == Join(Entries(wallets, toJson), ",")
    ensures wallets == [] ==> JsonArray(wallets, toJson) == "[\n]"
  {
    if |wallets| > 1 {
      var init := wallets[..|wallets| - 1];
      JsonArrayIsJoin(init, toJson);
      var es := Entries(wallets, toJson);
      assert es[..|es| - 1] == Entries(init, toJson);
    } else if |wallets| == 1 {
      assert wallets[..0] == [];
    }
  }

  /** The commas inside the wallets' own JSON. */
  function InnerCommas(wallets: seq<Wallet>, toJson: Wallet -> string): nat {
    if wallets == [] then 0
    else InnerCommas(wallets[..|wallets| - 1], toJson) + CountChar(',', toJson(wallets[|wallets| - 1]))
  }

  /** `n` wallets are separated by exactly `n - 1` commas of the framing. */
  lemma {:induction false} JsonArrayCommas(wallets: seq<Wallet>, toJson: Wallet -> string)
    ensures CountChar(',', JsonArray(wallets, toJson))
         == (if wallets == [] then 0 else |wallets| - 1) + InnerCommas(wallets, toJson)
  {
    JsonArrayBodyCommas(wallets, toJson);
    var body := JsonArrayBody(wallets, toJson);
    CountCharAppend(',', "[" + body, "\n]");
    CountCharAppend(',', "[", body);
    assert CountChar(',', "[") == 0 by {
      assert "["[..0] == [];
    }
    assert CountChar(',', "\n]") == 0 by {
      assert "\n]"[..1] == "\n";
      assert "\n"[..0] == [];
    }
  }

  lemma {:induction false} JsonArrayBodyCommas(wallets: seq<Wallet>, toJson: Wallet -> string)
    ensures CountChar(',', JsonArrayBody(wallets, toJson))
         == (if wallets == [] then 0 else |wallets| - 1) + InnerCommas(wallets, toJson)
  {
    if wallets != [] {
      var init := wallets[..|wallets| - 1];
      var sep: string := if |wallets| > 1 then "," else "";
      var entry := toJson(wallets[|wallets| - 1]);
      JsonArrayBodyCommas(init, toJson);
      CountCharAppend(',', JsonArrayBody(init, toJson) + sep + "\n  ", entry);
      CountCharAppend(',', JsonArrayBody(init, toJson) + sep, "\n  ");
      CountCharAppend(',', JsonArrayBody(init, toJson), sep);
      assert CountChar(',', "\n  ") == 0 by {
        assert "\n  "[..2] == "\n ";
        assert "\n "[..1] == "\n";
        assert "\n"[..0] == [];
      }
      assert CountChar(',', sep) == (if |wallets| > 1 then 1 else 0) by {
        if |wallets| > 1 {
          assert sep[..0] == [];
        }
      }
      assert init == [] <==> |wallets| == 1;
    }
  }

  /** The `for (i, wallet)` loop of lines 172-180, writing into a buffer. */
  method WriteJsonArray(wallets: seq<Wallet>, toJson: Wallet -> string) returns (out: string)
    ensures out == JsonArray(wallets, toJson)
  {
    out := "[";
    var i := 0;
    while i < |wallets|
      invariant i <= |wallets|
      invariant out == "[" + JsonArrayBody(wallets[..i], toJson)
    {
      if i > 0 {
        out := out + ",";
      }
      out := out + "\n  ";
      out := out + toJson(wallets[i]);
      assert wallets[..i + 1][..i] == wallets[..i];
      i := i + 1;
    }
    assert wallets[..i] == wallets;
    out := out + "\n]";
  }
}
