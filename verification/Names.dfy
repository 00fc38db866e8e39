/** Interface and port names as LLDP and the bridge report them. */
module Names {

  predicate IsSpace(c: char) {
    c == ' ' || '\t' <= c <= '\r'
  }

  function StripLeft(s: string): string {
    if s != "" && IsSpace(s[0]) then StripLeft(s[1..]) else s
  }

  function StripRight(s: string): string {
    if s != "" && IsSpace(s[|s| - 1]) then StripRight(s[..|s| - 1]) else s
  }

  function Strip(s: string): string {
    StripRight(StripLeft(s))
  }

  function Lower(s: string): string {
    if s == "" then ""
    else [if 'A' <= s[0] <= 'Z' then (s[0] as int + 32) as char else s[0]] + Lower(s[1..])
  }

  function BeforeDot(s: string): string {
    if s == "" || s[0] == '.' then "" else [s[0]] + BeforeDot(s[1..])
  }

  /** The physical port of an interface: no VLAN suffix, no blanks, lower case. */
  function NormalizePort(iface: string): string {
    Lower(Strip(BeforeDot(iface)))
  }

  /** Name prefixes of wireless network devices on OpenWrt. */
  predicate IsWireless(iface: string) {
    var name := Lower(Strip(iface));
    "wlan" <= name || "wl" <= name || "wds" <= name || "mesh" <= name ||
    "ath" <= name || "phy" <= name || "sta" <= name || "radio" <= name
  }

  predicate IsWan(iface: string) {
    "wan" <= Lower(Strip(iface)) && !IsWireless(iface)
  }

  // ------------------------------------------------- what the names come to

  /** The blanks of ASCII: space, tab, line feed, vertical tab, form feed and carriage return. */
  lemma BlanksAre(c: char)
    ensures IsSpace(c) <==> c as int in {32, 9, 10, 11, 12, 13}
  {
  }

  ghost predicate Blank(s: string) {
    forall i | 0 <= i < |s| :: IsSpace(s[i])
  }

  /** Stripping takes blanks off both ends, all of them and nothing else. */
  lemma StripTrims(s: string) returns (head: string, tail: string)
    ensures s == head + Strip(s) + tail && Blank(head) && Blank(tail)
    ensures Strip(s) != "" ==> !IsSpace(Strip(s)[0]) && !IsSpace(Strip(s)[|Strip(s)| - 1])
  {
    head := TrimLeft(s);
    tail := TrimRight(StripLeft(s));
  }

  lemma {:induction false} TrimLeft(s: string) returns (head: string)
    ensures s == head + StripLeft(s) && Blank(head)
    ensures StripLeft(s) != "" ==> !IsSpace(StripLeft(s)[0])
  {
    head := "";
    if s != "" && IsSpace(s[0]) {
      head := TrimLeft(s[1..]);
      head := [s[0]] + head;
    }
  }

  lemma {:induction false} TrimRight(s: string) returns (tail: string)
    ensures s == StripRight(s) + tail && Blank(tail)
    ensures StripRight(s) != "" ==> !IsSpace(StripRight(s)[|StripRight(s)| - 1]) && StripRight(s)[0] == s[0]
  {
    tail := "";
    if s != "" && IsSpace(s[|s| - 1]) {
      tail := TrimRight(s[..|s| - 1]);
      tail := tail + [s[|s| - 1]];
    }
  }

  /** Letter by letter: capitals become small, everything else stays. */
  lemma {:induction false} LowerAt(s: string, i: nat)
    requires i < |s|
    ensures |Lower(s)| == |s|
    ensures 'A' <= s[i] <= 'Z' ==> Lower(s)[i] as int - 'a' as int == s[i] as int - 'A' as int
    ensures !('A' <= s[i] <= 'Z') ==> Lower(s)[i] == s[i]
  {
    if i > 0 {
      LowerAt(s[1..], i - 1);
    } else if |s| > 1 {
      LowerAt(s[1..], 0);
    }
  }

  /** The part before the first dot, or the whole name. */
  lemma {:induction false} BeforeDotIs(s: string, x: string)
    ensures BeforeDot(s) == x <==> x <= s && '.' !in x && (|x| == |s| || s[|x|] == '.')
  {
    if s != "" && s[0] != '.' {
      if x != "" {
        BeforeDotIs(s[1..], x[1..]);
        assert s == [s[0]] + s[1..] && x == [x[0]] + x[1..];
      }
    }
  }

  /** No wireless device is called like a WAN port: the prefix alone decides. */
  lemma WanByPrefix(iface: string)
    ensures IsWan(iface) <==> "wan" <= Lower(Strip(iface))
  {
    var name := Lower(Strip(iface));
    if "wan" <= name {
      assert name[0] == 'w' && name[1] == 'a';
      assert !("wlan" <= name) && !("wl" <= name) && !("wds" <= name) && !("mesh" <= name);
    }
  }

  /** Seven prefixes make a name wireless; "wlan" is one of the names that begin with "wl". */
  lemma WirelessByPrefix(iface: string)
    ensures var name := Lower(Strip(iface));
            IsWireless(iface) <==> "wl" <= name || "wds" <= name || "mesh" <= name || "ath" <= name || "phy" <= name
                                   || "sta" <= name || "radio" <= name
  {
    var name := Lower(Strip(iface));
    if "wlan" <= name {
      assert name[0] == 'w' && name[1] == 'l';
    }
  }
}
