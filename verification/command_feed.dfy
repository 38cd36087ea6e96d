/** The live command feed of the first loading screen: classification of a
    command line into one of ten kinds, the colour each kind is shown in, the
    twenty initial lines and the periodic tick that appends one line and keeps
    only the newest ones. */
module CommandFeed {
  import opened Common
  import opened Text

  datatype CommandType =
    Import | Function | Curl | Echo | Git | Sudo | System | Exploit | Decrypt | Network

  /** `getCommandType`: substring rules tried in a fixed order, first match wins. */
  function Classify(cmd: string): CommandType {
    if Contains(cmd, "import") || Contains(cmd, "from") then Import
    else if Contains(cmd, "def ") || Contains(cmd, "function") then Function
    else if Contains(cmd, "curl") || Contains(cmd, "wget") then Curl
    else if Contains(cmd, "echo") || Contains(cmd, "cat") then Echo
    else if Contains(cmd, "git") || Contains(cmd, "commit") then Git
    else if Contains(cmd, "sudo") || Contains(cmd, "rm") then Sudo
    else if Contains(cmd, "ssh") || Contains(cmd, "nmap") || Contains(cmd, "nc") then Network
    else if Contains(cmd, "hydra") || Contains(cmd, "john") || Contains(cmd, "hashcat") then Exploit
    else if Contains(cmd, "openssl") || Contains(cmd, "gpg") then Decrypt
    else System
  }

  /** One classification rule: the kind it assigns and the substrings that trigger it. */
  datatype Rule = Rule(kind: CommandType, patterns: seq<string>)

  /** The rule table, in the order the classifier tries it. */
  const Rules: seq<Rule> := [
    Rule(Import, ["import", "from"]),
    Rule(Function, ["def ", "function"]),
    Rule(Curl, ["curl", "wget"]),
    Rule(Echo, ["echo", "cat"]),
    Rule(Git, ["git", "commit"]),
    Rule(Sudo, ["sudo", "rm"]),
    Rule(Network, ["ssh", "nmap", "nc"]),
    Rule(Exploit, ["hydra", "john", "hashcat"]),
    Rule(Decrypt, ["openssl", "gpg"])
  ]

  /** Some pattern of the list occurs in the command. */
  predicate AnyContains(cmd: string, patterns: seq<string>) {
    |patterns| > 0 && (Contains(cmd, patterns[0]) || AnyContains(cmd, patterns[1..]))
  }

  /** A generic first-match classifier over a rule table; `System` when nothing matches. */
  function FirstMatch(rules: seq<Rule>, cmd: string): CommandType {
    if |rules| == 0 then System
    else if AnyContains(cmd, rules[0].patterns) then rules[0].kind
    else FirstMatch(rules[1..], cmd)
  }

  /** No rule of the table assigns `System`, and no two rules assign the same kind. */
  ghost predicate DistinctKinds(rules: seq<Rule>) {
    (forall j :: 0 <= j < |rules| ==> rules[j].kind != System)
    && (forall i, j :: 0 <= i < j < |rules| ==> rules[i].kind != rules[j].kind)
  }

  lemma AnyContainsPair(cmd: string, a: string, b: string)
    ensures AnyContains(cmd, [a, b]) <==> Contains(cmd, a) || Contains(cmd, b)
  {
    assert [a, b][1..] == [b] && [b][1..] == [];
    assert AnyContains(cmd, [b]) <==> Contains(cmd, b);
  }

  lemma AnyContainsTriple(cmd: string, a: string, b: string, c: string)
    ensures AnyContains(cmd, [a, b, c]) <==> Contains(cmd, a) || Contains(cmd, b) || Contains(cmd, c)
  {
    assert [a, b, c][1..] == [b, c] && [b, c][1..] == [c] && [c][1..] == [];
    assert AnyContains(cmd, [c]) <==> Contains(cmd, c);
    assert AnyContains(cmd, [b, c]) <==> Contains(cmd, b) || Contains(cmd, c);
  }

  /** The hand-written if-chain is the first-match reading of the rule table. */
  lemma ClassifyIsFirstMatch(cmd: string)
    ensures Classify(cmd) == FirstMatch(Rules, cmd)
  {
    RulesUnrolled(cmd);
    AnyContainsPair(cmd, "import", "from");
    AnyContainsPair(cmd, "def ", "function");
    AnyContainsPair(cmd, "curl", "wget");
    AnyContainsPair(cmd, "echo", "cat");
    AnyContainsPair(cmd, "git", "commit");
    AnyContainsPair(cmd, "sudo", "rm");
    AnyContainsTriple(cmd, "ssh", "nmap", "nc");
    AnyContainsTriple(cmd, "hydra", "john", "hashcat");
    AnyContainsPair(cmd, "openssl", "gpg");
  }

  /** First-match over the table, written out rule by rule. */
  lemma RulesUnrolled(cmd: string)
    ensures FirstMatch(Rules, cmd) ==
      if AnyContains(cmd, ["import", "from"]) then Import
      else if AnyContains(cmd, ["def ", "function"]) then Function
      else if AnyContains(cmd, ["curl", "wget"]) then Curl
      else if AnyContains(cmd, ["echo", "cat"]) then Echo
      else if AnyContains(cmd, ["git", "commit"]) then Git
      else if AnyContains(cmd, ["sudo", "rm"]) then Sudo
      else if AnyContains(cmd, ["ssh", "nmap", "nc"]) then Network
      else if AnyContains(cmd, ["hydra", "john", "hashcat"]) then Exploit
      else if AnyContains(cmd, ["openssl", "gpg"]) then Decrypt
      else System
  {
    var r := Rules;
    assert FirstMatch(r[9..], cmd) == System;
    assert FirstMatch(r[8..], cmd) == if AnyContains(cmd, r[8].patterns) then Decrypt else System;
    assert FirstMatch(r[7..], cmd) == if AnyContains(cmd, r[7].patterns) then Exploit else FirstMatch(r[8..], cmd);
    assert FirstMatch(r[6..], cmd) == if AnyContains(cmd, r[6].patterns) then Network else FirstMatch(r[7..], cmd);
    assert FirstMatch(r[5..], cmd) == if AnyContains(cmd, r[5].patterns) then Sudo else FirstMatch(r[6..], cmd);
    assert FirstMatch(r[4..], cmd) == if AnyContains(cmd, r[4].patterns) then Git else FirstMatch(r[5..], cmd);
    assert FirstMatch(r[3..], cmd) == if AnyContains(cmd, r[3].patterns) then Echo else FirstMatch(r[4..], cmd);
    assert FirstMatch(r[2..], cmd) == if AnyContains(cmd, r[2].patterns) then Curl else FirstMatch(r[3..], cmd);
    assert FirstMatch(r[1..], cmd) == if AnyContains(cmd, r[1].patterns) then Function else FirstMatch(r[2..], cmd);
    assert FirstMatch(r, cmd) == if AnyContains(cmd, r[0].patterns) then Import else FirstMatch(r[1..], cmd);
  }

  /** The answer of a first-match classifier is the fallback or the kind of a rule that matched. */
  lemma {:induction false} FirstMatchOrigin(rules: seq<Rule>, cmd: string)
    ensures FirstMatch(rules, cmd) == System
      || exists j :: 0 <= j < |rules| && FirstMatch(rules, cmd) == rules[j].kind
  {
    if |rules| > 0 && !AnyContains(cmd, rules[0].patterns) {
      FirstMatchOrigin(rules[1..], cmd);
      if FirstMatch(rules, cmd) != System {
        var j :| 0 <= j < |rules[1..]| && FirstMatch(rules[1..], cmd) == rules[1..][j].kind;
        assert rules[1..][j] == rules[j + 1];
      }
    }
  }

  lemma DistinctKindsTail(rules: seq<Rule>)
    requires DistinctKinds(rules) && |rules| > 0
    ensures DistinctKinds(rules[1..])
  {
    forall i, j | 0 <= i < j < |rules[1..]|
      ensures rules[1..][i].kind != rules[1..][j].kind
    {
      assert rules[1..][i] == rules[i + 1] && rules[1..][j] == rules[j + 1];
    }
  }

  /** First match wins: rule k decides exactly when it matches and no earlier rule does. */
  lemma {:induction false} FirstMatchWins(rules: seq<Rule>, cmd: string, k: nat)
    requires DistinctKinds(rules) && k < |rules|
    ensures FirstMatch(rules, cmd) == rules[k].kind
      <==> (AnyContains(cmd, rules[k].patterns)
            && forall j :: 0 <= j < k ==> !AnyContains(cmd, rules[j].patterns))
  {
    if AnyContains(cmd, rules[0].patterns) {
      assert k > 0 ==> rules[0].kind != rules[k].kind;
    } else {
      DistinctKindsTail(rules);
      if k > 0 {
        FirstMatchWins(rules[1..], cmd, k - 1);
        assert rules[1..][k - 1] == rules[k];
        assert forall j :: 0 < j < k ==> rules[j] == rules[1..][j - 1];
      } else {
        FirstMatchOrigin(rules[1..], cmd);
        if FirstMatch(rules[1..], cmd) != System {
          var j :| 0 <= j < |rules[1..]| && FirstMatch(rules[1..], cmd) == rules[1..][j].kind;
          assert rules[1..][j] == rules[j + 1];
        }
      }
    }
  }

  /** A pattern list matches exactly when one of its patterns occurs. */
  lemma {:induction false} AnyContainsIff(cmd: string, patterns: seq<string>)
    ensures AnyContains(cmd, patterns)
      <==> exists k :: 0 <= k < |patterns| && Contains(cmd, patterns[k])
  {
    if |patterns| > 0 {
      AnyContainsIff(cmd, patterns[1..]);
      assert forall k :: 0 < k < |patterns| ==> patterns[k] == patterns[1..][k - 1];
    }
  }

  /** A first-match classifier falls back exactly when no rule matches. */
  lemma {:induction false} FirstMatchFallback(rules: seq<Rule>, cmd: string)
    requires DistinctKinds(rules)
    ensures FirstMatch(rules, cmd) == System
      <==> forall j :: 0 <= j < |rules| ==> !AnyContains(cmd, rules[j].patterns)
  {
    if |rules| > 0 && !AnyContains(cmd, rules[0].patterns) {
      FirstMatchFallback(rules[1..], cmd);
      assert forall j :: 0 < j < |rules| ==> rules[j] == rules[1..][j - 1];
    }
  }

  lemma RulesDistinct()
    ensures DistinctKinds(Rules)
  {
  }

  /** `getCommandType` answers `"system"` exactly when none of the listed substrings occurs. */
  lemma ClassifySystemIff(cmd: string)
    ensures Classify(cmd) == System
      <==> forall j :: 0 <= j < |Rules| ==> !AnyContains(cmd, Rules[j].patterns)
  {
    ClassifyIsFirstMatch(cmd);
    RulesDistinct();
    FirstMatchFallback(Rules, cmd);
  }

  /** `getCommandType` answers kind `Rules[k].kind` exactly when rule k matches and no earlier one does. */
  lemma ClassifyFirstMatchWins(cmd: string, k: nat)
    requires k < |Rules|
    ensures Classify(cmd) == Rules[k].kind
      <==> (AnyContains(cmd, Rules[k].patterns)
            && forall j :: 0 <= j < k ==> !AnyContains(cmd, Rules[j].patterns))
  {
    ClassifyIsFirstMatch(cmd);
    RulesDistinct();
    FirstMatchWins(Rules, cmd, k);
  }

  /** `cat` is tested before `nc`, so an `ncat` line is shown as an echo. */
  lemma NcatIsEcho()
    ensures Classify("ncat -l") == Echo
  {
    var s := "ncat -l";
    MissingChar(s, "import", 0);
    MissingChar(s, "from", 0);
    MissingChar(s, "def ", 0);
    MissingChar(s, "function", 0);
    MissingChar(s, "curl", 1);
    MissingChar(s, "wget", 0);
    MissingChar(s, "echo", 0);
    ContainsAt(s, "cat", 1);
  }

  /** `rm` belongs to the sudo rule, so a `terraform` line is shown as sudo. */
  lemma TerraformIsSudo()
    ensures Classify("terraform") == Sudo
  {
    var s := "terraform";
    MissingChar(s, "import", 0);
    MissingPair(s, "from");
    MissingChar(s, "def ", 0);
    MissingChar(s, "function", 1);
    MissingChar(s, "curl", 0);
    MissingChar(s, "wget", 0);
    MissingChar(s, "echo", 1);
    MissingChar(s, "cat", 0);
    MissingChar(s, "git", 0);
    MissingChar(s, "commit", 0);
    MissingChar(s, "sudo", 0);
    ContainsAt(s, "rm", 7);
  }

  /** `getCommandColor`: the Tailwind class each kind is printed in. */
  function Color(t: CommandType): string {
    match t
    case Import => "text-cyan-400"
    case Function => "text-yellow-400"
    case Curl => "text-blue-400"
    case Echo => "text-green-400"
    case Git => "text-purple-400"
    case Sudo => "text-red-400"
    case Network => "text-orange-400"
    case Exploit => "text-red-500"
    case Decrypt => "text-pink-400"
    case System => "text-green-400"
  }

  /** Two kinds share a colour exactly when they are equal or both are among
      `echo` and `system` (which share `text-green-400`). */
  lemma ColorSharedOnlyByEchoAndSystem(a: CommandType, b: CommandType)
    ensures Color(a) == Color(b) <==> a == b || (a in {Echo, System} && b in {Echo, System})
  {
    if a != b && !(a in {Echo, System} && b in {Echo, System}) {
      var ca, cb := Color(a), Color(b);
      assert |ca| != |cb| || ca[5] != cb[5] || ca[9] != cb[9];
    }
  }

  /** One line of the feed. `delay` is an animation delay in milliseconds. */
  datatype HackerCommand =
    HackerCommand(id: int, line: int, command: string, kind: CommandType, color: string, delay: real)

  /** The feed: its visible lines and the number the next line will get. */
  datatype Feed = Feed(commands: seq<HackerCommand>, currentLine: int)

  /** The random draws for one line: which corpus entry and what delay. */
  datatype CommandDraw = CommandDraw(pick: Draw, delay: Draw)

  const FirstLine := 2473
  const InitialCount := 20
  /** The feed keeps the newest `FeedCap` lines before appending a new one. */
  const FeedCap := 25

  /** The corpus of command lines the feed draws from. */
  const HackerCommands: seq<string> := [
    "ssh root@matrix.neo.local -p 2077",
    "nmap -sS -O target.consciousness.net",
    "hydra -l admin -P /usr/share/wordlists/rockyou.txt ssh://reality.exe",
    "sqlmap -u 'https://brain.local/login' --dbs",
    "msfconsole -q -x 'use exploit/multi/handler'",
    "nc -lvp 4444 # Listening for reverse shell",
    "python3 -c \"import pty; pty.spawn('/bin/bash')\"",
    "find / -perm -4000 -type f 2>/dev/null",
    "cat /etc/passwd | grep -E '^[^:]*:[^:]*:0:'",
    "ps aux | grep -i consciousness",
    "import consciousness from 'digital_realm'",
    "curl -X POST https://matrix.net/redpill -H 'X-Reality: false'",
    "echo 'I am the one' > /dev/null 2>&1",
    "def neural_hack(): return matrix.decode(quantum_state)",
    "sudo rm -rf /limitations/* --no-preserve-root",
    "git commit -m 'reality.exe has stopped working' --allow-empty",
    "docker run -d --privileged --name reality universe:latest",
    "kubectl apply -f consciousness-deployment.yaml",
    "terraform apply -var='reality=false' -auto-approve",
    "ansible-playbook -i hosts enlightenment.yml",
    "openssl genrsa -out private_key.pem 4096",
    "gpg --gen-key --batch --passphrase 'transcendence'",
    "hashcat -m 1000 -a 0 hashes.txt wordlist.txt",
    "john --wordlist=/usr/share/wordlists/rockyou.txt shadow",
    "aircrack-ng -w wordlist.txt -b 00:11:22:33:44:55 capture.cap",
    "ettercap -T -M arp:remote /192.168.1.1// /192.168.1.100//",
    "wireshark -i eth0 -k -f 'tcp port 443'",
    "ncat --ssl -l 443 --sh-exec 'cat /etc/passwd'",
    "socat TCP-LISTEN:8080,fork TCP:target.local:80",
    "proxychains nmap -sT -Pn target.internal",
    "echo 0 > /proc/sys/kernel/randomize_va_space",
    "sysctl -w net.ipv4.ip_forward=1",
    "iptables -t nat -A POSTROUTING -o eth0 -j MASQUERADE",
    "mount -t tmpfs -o size=1G tmpfs /tmp/ramdisk",
    "chroot /mnt/target /bin/bash",
    "strace -p $(pgrep consciousness) -o trace.log",
    "gdb -p $(pgrep reality) -batch -ex 'bt' -ex 'quit'",
    "ltrace ./consciousness 2>&1 | grep -i password",
    "objdump -d ./reality | grep -A 10 -B 10 'call.*system'",
    "strings /usr/bin/consciousness | grep -i 'password\\|key\\|secret'",
    "python3 neural_network_init.py --dimensions=infinite --reality=false",
    "cargo build --release --features=multidimensional,quantum",
    "go run main.go --mode=transcendent --debug=false --reality=optional",
    "rustc --edition=2024 cosmic_brain.rs -o enlightenment.exe",
    "node server.js --port=∞ --host=0.0.0.0 --reality=simulation",
    "pip install tensorflow-quantum numpy-cosmic consciousness-api",
    "npm install @cosmic/brain-interface@latest --save-dev",
    "gem install reality-distortion-field",
    "composer require universe/consciousness:^∞.0",
    "yarn add @quantum/entanglement @cosmic/awareness",
    "dd if=/dev/zero of=/dev/reality bs=1M count=1024",
    "rsync -avz --progress /consciousness/ backup@remote:/quantum/",
    "tar -czf consciousness_backup.tar.gz /var/lib/consciousness/",
    "find /reality -name '*.truth' -exec shred -vfz -n 3 {} \\;",
    "grep -r 'meaning_of_life' /universe/ --include='*.py'",
    "awk '{sum+=$1} END {print \"Total consciousness:\", sum}' /proc/awareness",
    "sed -i 's/reality/simulation/g' /etc/universe.conf",
    "sort /var/log/cosmic_events.log | uniq -c | sort -nr",
    "head -n 42 /dev/urandom | base64 | tr -d '\\n'",
    "tail -f /var/log/enlightenment.log | grep -i 'transcendence'"
  ]

  /** The source's corpus is not empty, so the feed functions below, which
      take the corpus as a parameter, apply to it. */
  lemma CorpusSize()
    ensures |HackerCommands| == 60
  {
  }

  /** A line shows a corpus command with the kind and colour the classifier gives it. */
  predicate WellFormed(corpus: seq<string>, c: HackerCommand) {
    c.command in corpus && c.kind == Classify(c.command) && c.color == Color(c.kind)
  }

  /** One new line: a corpus entry chosen by `Math.floor(random * length)`, classified and coloured. */
  function MakeCommand(corpus: seq<string>, id: int, line: int, d: CommandDraw, maxDelay: real): (c: HackerCommand)
    requires |corpus| > 0 && maxDelay > 0.0
    ensures WellFormed(corpus, c) && c.id == id && c.line == line
    ensures 0.0 <= c.delay < maxDelay
  {
    var text := corpus[PickIndex(d.pick, |corpus|)];
    var kind := Classify(text);
    HackerCommand(id, line, text, kind, Color(kind), Scale(d.delay, maxDelay))
  }

  /** Line numbers strictly increase down the feed and stay below the next number to hand out. */
  ghost predicate Numbered(f: Feed) {
    (forall i, j :: 0 <= i < j < |f.commands| ==> f.commands[i].line < f.commands[j].line)
    && (forall i :: 0 <= i < |f.commands| ==> f.commands[i].line < f.currentLine)
  }

  /** The initialisation effect: twenty lines numbered 2473..2492 with ids 0..19,
      after which the next line number is 2493. */
  method InitialFeed(corpus: seq<string>, draws: seq<CommandDraw>) returns (feed: Feed)
    requires |corpus| > 0 && |draws| == InitialCount
    ensures |feed.commands| == InitialCount
    ensures forall i :: 0 <= i < |feed.commands| ==>
      feed.commands[i].id == i && feed.commands[i].line == FirstLine + i
      && WellFormed(corpus, feed.commands[i]) && 0.0 <= feed.commands[i].delay < 100.0
    ensures feed.currentLine == 2493
    ensures Numbered(feed)
  {
    var cs: seq<HackerCommand> := [];
    var i := 0;
    while i < InitialCount
      invariant 0 <= i <= InitialCount && |cs| == i
      invariant forall j :: 0 <= j < i ==>
        cs[j].id == j && cs[j].line == FirstLine + j && WellFormed(corpus, cs[j]) && 0.0 <= cs[j].delay < 100.0
    {
      cs := cs + [MakeCommand(corpus, i, FirstLine + i, draws[i], 100.0)];
      i := i + 1;
    }
    feed := Feed(cs, FirstLine + |cs|);
  }

  /** The periodic tick: below 100% progress it appends a line numbered
      `currentLine` after the newest 25 old lines and advances `currentLine`;
      at 100% it leaves the feed alone. `now` stands for `Date.now()`. */
  function FeedTick(f: Feed, corpus: seq<string>, progress: real, d: CommandDraw, now: int): (r: Feed)
    requires |corpus| > 0
    ensures progress >= 100.0 ==> r == f
    ensures progress < 100.0 ==>
      r.currentLine == f.currentLine + 1
      && |r.commands| == Min(|f.commands| + 1, FeedCap + 1)
      && r.commands[|r.commands| - 1].line == f.currentLine
      && WellFormed(corpus, r.commands[|r.commands| - 1])
      && IsSuffix(r.commands[..|r.commands| - 1], f.commands)
  {
    if progress < 100.0 then
      var r := Feed(PushCapped(f.commands, MakeCommand(corpus, now, f.currentLine, d, 200.0), FeedCap), f.currentLine + 1);
      assert r.commands[..|r.commands| - 1] == Last(f.commands, FeedCap);
      r
    else f
  }

  /** The tick keeps the feed numbered, so the visible line numbers are always
      increasing and no number is ever reused. */
  lemma FeedTickKeepsNumbering(f: Feed, corpus: seq<string>, progress: real, d: CommandDraw, now: int)
    requires |corpus| > 0 && Numbered(f)
    ensures Numbered(FeedTick(f, corpus, progress, d, now))
  {
    if progress < 100.0 {
      SuffixKeepsNumbering(f, FeedTick(f, corpus, progress, d, now));
    }
  }

  /** A feed made of newest old lines followed by one line numbered
      `currentLine`, with the counter advanced, is numbered again. */
  lemma SuffixKeepsNumbering(f: Feed, r: Feed)
    requires Numbered(f) && |r.commands| > 0
    requires r.currentLine == f.currentLine + 1
    requires r.commands[|r.commands| - 1].line == f.currentLine
    requires IsSuffix(r.commands[..|r.commands| - 1], f.commands)
    ensures Numbered(r)
  {
    var n := |r.commands|;
    var front := r.commands[..n - 1];
    var off := |f.commands| - (n - 1);
    forall i | 0 <= i < n - 1 ensures r.commands[i] == f.commands[off + i] {
      assert r.commands[i] == front[i];
    }
  }

  /** The feed never holds more than 26 lines once it holds at most 26. */
  lemma FeedTickBounded(f: Feed, corpus: seq<string>, progress: real, d: CommandDraw, now: int)
    requires |corpus| > 0 && |f.commands| <= FeedCap + 1
    ensures |FeedTick(f, corpus, progress, d, now).commands| <= FeedCap + 1
  {
  }
}
