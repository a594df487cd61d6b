/**
 databases/mysqldb/utils.go: the WHERE builder and its escaper. A string is a sequence of bytes written as
 characters; the values bound to placeholders are left abstract.
 */
module SqlWhere {
  import opened Wrappers

  // ----- the escaper

  /** The byte written after a backslash for `c`, if `c` is escaped. */
  function EscapeOf(c: char): Option<char> {
    match c
    case '\0' => Some('0')
    case '\r' => Some('r')
    case '\n' => Some('n')
    case '\\' => Some('\\')
    case '\'' => Some('\'')
    case '"' => Some('"')
    case '\U{1A}' => Some('Z')
    case _ => None
  }

  function Escape(s: string): string {
    if s == [] then []
    else Escape(s[..|s| - 1]) + (match EscapeOf(s[|s| - 1]) case None => [s[|s| - 1]] case Some(e) => ['\\', e])
  }

  lemma {:induction false} EscapeAppend(s: string, t: string)
    ensures Escape(s + t) == Escape(s) + Escape(t)
  {
    if t == [] {
      assert s + t == s;
    } else {
      assert (s + t)[..|s + t| - 1] == s + t[..|t| - 1];
      EscapeAppend(s, t[..|t| - 1]);
    }
  }

  /** How many bytes MySQL wants escaped: NUL, line ends, quotes, the backslash and Ctrl-Z. */
  ghost function Specials(s: string): nat {
    if s == [] then 0
    else Specials(s[..|s| - 1]) + if s[|s| - 1] in {'\0', '\r', '\n', '\\', '\'', '"', '\U{1A}'} then 1 else 0
  }

  /** The loop of `MysqlEscapeString` fills a buffer of twice the length and never runs past it. */
  method MysqlEscapeString(source: string) returns (r: string)
    ensures r == Escape(source)
    ensures |r| == |source| + Specials(source) <= 2 * |source|
  {
    var j := 0;
    if |source| == 0 {
      return "";
    }
    var desc := new char[|source| * 2];
    for i := 0 to |source|
      invariant i <= j == i + Specials(source[..i]) <= 2 * i
      invariant desc[..j] == Escape(source[..i])
    {
      assert source[..i + 1][..i] == source[..i];
      var escape := EscapeOf(source[i]);
      if escape.Some? {
        desc[j] := '\\';
        desc[j + 1] := escape.value;
        j := j + 2;
      } else {
        desc[j] := source[i];
        j := j + 1;
      }
    }
    assert source[..|source|] == source;
    r := desc[..j];
  }

  /** Section 9.1.1 of the MySQL Reference Manual: what a backslash sequence in a string literal stands for. */
  function Meaning(c: char): string {
    match c
    case '0' => "\0"
    case 'b' => ['\U{08}']
    case 'n' => "\n"
    case 'r' => "\r"
    case 't' => "\t"
    case 'Z' => ['\U{1A}']
    case '%' => "\\%"
    case '_' => "\\_"
    case _ => [c]
  }

  function Unescape(s: string): string {
    if s == [] then []
    else if s[0] == '\\' && |s| > 1 then Meaning(s[1]) + Unescape(s[2..])
    else [s[0]] + Unescape(s[1..])
  }

  /** Read from the left, every backslash starts a pair and no quote stands outside one. */
  predicate NoBareQuote(s: string) {
    if s == [] then true
    else if s[0] == '\\' then |s| > 1 && NoBareQuote(s[2..])
    else s[0] != '\'' && s[0] != '"' && NoBareQuote(s[1..])
  }

  /** No control byte that MySQL would not take as it stands. */
  predicate NoControl(s: string) {
    forall c <- s :: c !in {'\0', '\r', '\n', '\U{1A}'}
  }

  /** Control bytes do not get through. */
  lemma {:induction false} EscapeHidesControl(s: string)
    ensures NoControl(Escape(s))
  {
    if s != [] {
      EscapeHidesControl(s[..|s| - 1]);
    }
  }

  lemma EscapeFirst(s: string)
    requires s != []
    ensures Escape(s) == (if EscapeOf(s[0]).Some? then ['\\', EscapeOf(s[0]).value] else [s[0]]) + Escape(s[1..])
  {
    assert s == [s[0]] + s[1..] && [s[0]][..0] == [];
    EscapeAppend([s[0]], s[1..]);
  }

  /** One byte more in front, escaped or not. */
  lemma ReadsOne(c: char, rest: string)
    ensures var text := (if EscapeOf(c).Some? then ['\\', EscapeOf(c).value] else [c]) + rest;
            Unescape(text) == [c] + Unescape(rest) && (NoBareQuote(text) <==> NoBareQuote(rest))
  {
    if EscapeOf(c).Some? {
      var text := ['\\', EscapeOf(c).value] + rest;
      assert text[2..] == rest && Meaning(text[1]) == [c];
    } else {
      assert ([c] + rest)[1..] == rest;
    }
  }

  /** The escaped text reads back as the source, and cannot end the literal it is put in. */
  lemma {:induction false} EscapeRoundTrip(s: string)
    ensures Unescape(Escape(s)) == s && NoBareQuote(Escape(s))
  {
    if s != [] {
      hide Escape, EscapeOf, Unescape, NoBareQuote;
      EscapeRoundTrip(s[1..]);
      EscapeFirst(s);
      ReadsOne(s[0], Escape(s[1..]));
      assert s == [s[0]] + s[1..];
    }
  }

  lemma EscapeIsInjective(s: string, t: string)
    requires Escape(s) == Escape(t)
    ensures s == t
  {
    EscapeRoundTrip(s);
    EscapeRoundTrip(t);
  }

  /** A table prefix is escaped when it is set and again when it is used: harmless exactly if it needs no escape. */
  lemma EscapingTwice(prefix: string, shardKey: string)
    ensures Escape(Escape(prefix) + shardKey) == Escape(prefix + shardKey) <==> Escape(prefix) == prefix
  {
    EscapeAppend(Escape(prefix), shardKey);
    EscapeAppend(prefix, shardKey);
    if Escape(Escape(prefix) + shardKey) == Escape(prefix + shardKey) {
      EscapeIsInjective(Escape(prefix) + shardKey, prefix + shardKey);
      assert |Escape(prefix)| == |prefix|;
      assert (Escape(prefix) + shardKey)[..|prefix|] == Escape(prefix) && (prefix + shardKey)[..|prefix|] == prefix;
    }
  }

  // ----- placeholders

  function Marks(s: string): nat {
    if s == [] then 0 else Marks(s[..|s| - 1]) + if s[|s| - 1] == '?' then 1 else 0
  }

  lemma {:induction false} MarksAppend(s: string, t: string)
    ensures Marks(s + t) == Marks(s) + Marks(t)
  {
    if t == [] {
      assert s + t == s;
    } else {
      assert (s + t)[..|s + t| - 1] == s + t[..|t| - 1];
      MarksAppend(s, t[..|t| - 1]);
    }
  }

  lemma MarksOne(c: char)
    ensures Marks([c]) == if c == '?' then 1 else 0
  {
    assert [c][..0] == [];
  }

  lemma {:induction false} MarksZero(s: string)
    ensures Marks(s) == 0 <==> '?' !in s
  {
    if s != [] {
      MarksZero(s[..|s| - 1]);
      assert s == s[..|s| - 1] + [s[|s| - 1]];
    }
  }

  lemma {:induction false} MarksEscape(s: string)
    ensures Marks(Escape(s)) == Marks(s)
  {
    if s != [] {
      var front, c := s[..|s| - 1], s[|s| - 1];
      MarksEscape(front);
      var tail := match EscapeOf(c) case None => [c] case Some(e) => ['\\', e];
      MarksAppend(Escape(front), tail);
      MarksOne(c);
      if e :| EscapeOf(c) == Some(e) {
        MarksOne('\\');
        MarksOne(e);
        MarksAppend(['\\'], [e]);
      }
    }
  }

  // ----- conditions

  datatype Val = Number(n: int) | Text(s: string)

  /** A single value, or a list of any of the three slice types. */
  datatype Value = One(v: Val) | Many(vs: seq<Val>)

  datatype Condition = Condition(key: string, compare: string, value: Value)

  datatype Order = Order(key: string, desc: bool)

  /** A stretch of the statement and the values its placeholders stand for; `key` is the name it spells. */
  datatype Piece = Piece(text: string, args: seq<Val>, key: string)

  function TextOf(pieces: seq<Piece>): string {
    if pieces == [] then "" else TextOf(pieces[..|pieces| - 1]) + pieces[|pieces| - 1].text
  }

  function ArgsOf(pieces: seq<Piece>): seq<Val> {
    if pieces == [] then [] else ArgsOf(pieces[..|pieces| - 1]) + pieces[|pieces| - 1].args
  }

  lemma {:induction false} TextAppend(a: seq<Piece>, b: seq<Piece>)
    ensures TextOf(a + b) == TextOf(a) + TextOf(b)
  {
    if b == [] {
      assert a + b == a;
    } else {
      assert (a + b)[..|a + b| - 1] == a + b[..|b| - 1];
      TextAppend(a, b[..|b| - 1]);
    }
  }

  lemma {:induction false} ArgsAppend(a: seq<Piece>, b: seq<Piece>)
    ensures ArgsOf(a + b) == ArgsOf(a) + ArgsOf(b)
  {
    if b == [] {
      assert a + b == a;
    } else {
      assert (a + b)[..|a + b| - 1] == a + b[..|b| - 1];
      ArgsAppend(a, b[..|b| - 1]);
    }
  }

  lemma PiecesAppend(a: seq<Piece>, b: seq<Piece>)
    ensures TextOf(a + b) == TextOf(a) + TextOf(b) && ArgsOf(a + b) == ArgsOf(a) + ArgsOf(b)
  {
    TextAppend(a, b);
    ArgsAppend(a, b);
  }

  /** Placeholders in the keys of some pieces. */
  function StrayMarks(pieces: seq<Piece>): nat {
    if pieces == [] then 0 else StrayMarks(pieces[..|pieces| - 1]) + Marks(pieces[|pieces| - 1].key)
  }

  /** Each piece has a placeholder for each of its values, besides those its key spells. */
  predicate Fitted(p: Piece) {
    Marks(p.text) == |p.args| + Marks(p.key)
  }

  lemma {:induction false} MarksAddUp(pieces: seq<Piece>)
    requires forall p <- pieces :: Fitted(p)
    ensures Marks(TextOf(pieces)) == |ArgsOf(pieces)| + StrayMarks(pieces)
  {
    if pieces != [] {
      MarksAddUp(pieces[..|pieces| - 1]);
      assert Fitted(pieces[|pieces| - 1]);
      MarksAppend(TextOf(pieces[..|pieces| - 1]), pieces[|pieces| - 1].text);
    }
  }

  lemma {:induction false} NoStray(pieces: seq<Piece>)
    ensures StrayMarks(pieces) == 0 <==> forall p <- pieces :: '?' !in p.key
  {
    if pieces != [] {
      NoStray(pieces[..|pieces| - 1]);
      MarksZero(pieces[|pieces| - 1].key);
      assert pieces == pieces[..|pieces| - 1] + [pieces[|pieces| - 1]];
    }
  }

  /**
   There are as many placeholders as values exactly if no key spells one; and then, up to the end of every clause
   alike, so that the i-th placeholder stands in the clause that supplied the i-th value.
   */
  lemma Aligned(pieces: seq<Piece>)
    requires forall p <- pieces :: Fitted(p)
    ensures Marks(TextOf(pieces)) == |ArgsOf(pieces)| <==> forall p <- pieces :: '?' !in p.key
    ensures (forall p <- pieces :: '?' !in p.key) ==>
              forall j :: 0 <= j <= |pieces| ==> Marks(TextOf(pieces[..j])) == |ArgsOf(pieces[..j])|
    ensures forall j :: 0 <= j <= |pieces| ==> TextOf(pieces[..j]) <= TextOf(pieces) && ArgsOf(pieces[..j]) <= ArgsOf(pieces)
  {
    hide Fitted, TextOf, ArgsOf, Marks, StrayMarks;
    MarksAddUp(pieces);
    NoStray(pieces);
    forall j | 0 <= j <= |pieces|
      ensures (forall p <- pieces :: '?' !in p.key) ==> Marks(TextOf(pieces[..j])) == |ArgsOf(pieces[..j])|
      ensures TextOf(pieces[..j]) <= TextOf(pieces) && ArgsOf(pieces[..j]) <= ArgsOf(pieces)
    {
      AlignedAt(pieces, j);
    }
  }

  lemma AlignedAt(pieces: seq<Piece>, j: nat)
    requires (forall p <- pieces :: Fitted(p)) && j <= |pieces|
    ensures (forall p <- pieces :: '?' !in p.key) ==> Marks(TextOf(pieces[..j])) == |ArgsOf(pieces[..j])|
    ensures TextOf(pieces[..j]) <= TextOf(pieces) && ArgsOf(pieces[..j]) <= ArgsOf(pieces)
  {
    hide Fitted, TextOf, ArgsOf, Marks, StrayMarks;
    MarksAddUp(pieces[..j]);
    NoStray(pieces[..j]);
    PiecesAppend(pieces[..j], pieces[j..]);
    assert pieces == pieces[..j] + pieces[j..];
  }

  // ----- the pieces of a statement

  function InList(n: nat): string {
    if n == 0 then "" else if n == 1 then "?" else InList(n - 1) + ",?"
  }

  lemma {:induction false} InListMarks(n: nat)
    ensures Marks(InList(n)) == n
  {
    if n == 1 {
      MarksOne('?');
    } else if n > 1 {
      InListMarks(n - 1);
      MarksAppend(InList(n - 1), ",?");
      MarksAppend(",", "?");
      MarksOne(',');
      MarksOne('?');
    }
  }

  /** Opened and closed by a bracket, with a mark for each value and a comma between any two. */
  method MakeSqlPlaceHolderForIn(vals: seq<Val>) returns (r: string)
    ensures r == "(" + InList(|vals|) + ")"
    ensures |r| == 2 + (if vals == [] then 0 else 2 * |vals| - 1) && r[0] == '(' && r[|r| - 1] == ')'
    ensures forall i :: 0 < i < |r| - 1 ==> r[i] == if i % 2 == 1 then '?' else ','
  {
    var buffer := "(";
    for k := 0 to |vals|
      invariant buffer == "(" + InList(k) + if 0 < k < |vals| then "," else ""
      invariant |buffer| == 1 + (if k == |vals| && k > 0 then 2 * k - 1 else 2 * k) && buffer[0] == '('
      invariant forall i :: 0 < i < |buffer| ==> buffer[i] == if i % 2 == 1 then '?' else ','
    {
      buffer := buffer + "?";
      if k != |vals| - 1 {
        buffer := buffer + ",";
      }
    }
    r := buffer + ")";
  }

  /** `strings.Join`. */
  function Join(parts: seq<string>, sep: string): string {
    if parts == [] then ""
    else if |parts| == 1 then parts[0]
    else Join(parts[..|parts| - 1], sep) + sep + parts[|parts| - 1]
  }

  function CondText(c: Condition): string {
    match c.value
    case Many(vs) => " `" + c.key + "` IN (" + InList(|vs|) + ")"
    case One(_) => " `" + c.key + "` " + c.compare + " ?"
  }

  function CondArgs(c: Condition): seq<Val> {
    match c.value case Many(vs) => vs case One(v) => [v]
  }

  /** One piece per condition, each but the first with its AND. */
  function CondPieces(conds: seq<Condition>): (pieces: seq<Piece>)
    ensures |pieces| == |conds|
    ensures forall i :: 0 <= i < |conds| ==>
              pieces[i] == Piece((if i == 0 then "" else " AND") + CondText(conds[i]), CondArgs(conds[i]), conds[i].key)
  {
    seq(|conds|, i requires 0 <= i < |conds| =>
      Piece((if i == 0 then "" else " AND") + CondText(conds[i]), CondArgs(conds[i]), conds[i].key))
  }

  function OrderText(o: Order): string {
    o.key + if o.desc then " DESC" else " ASC"
  }

  function OrderPieces(orders: seq<Order>): (pieces: seq<Piece>)
    ensures |pieces| == |orders|
    ensures forall i :: 0 <= i < |orders| ==>
              pieces[i] == Piece((if i == 0 then " ORDER BY " else ",") + OrderText(orders[i]), [], orders[i].key)
  {
    seq(|orders|, i requires 0 <= i < |orders| =>
      Piece((if i == 0 then " ORDER BY " else ",") + OrderText(orders[i]), [], orders[i].key))
  }

  /** The offset comes before the limit, in the text and among the values. */
  function LimitPieces(limit: int, offset: int): seq<Piece> {
    if limit <= 0 then []
    else if offset > 0 then [Piece(" LIMIT ?", [Number(offset)], ""), Piece(",?", [Number(limit)], "")]
    else [Piece(" LIMIT ?", [Number(limit)], "")]
  }

  function Statement(conds: seq<Condition>, orders: seq<Order>, limit: int, offset: int): seq<Piece> {
    CondPieces(conds) + OrderPieces(orders) + LimitPieces(limit, offset)
  }

  lemma {:induction false} JoinPieces(texts: seq<string>, sep: string, pieces: seq<Piece>)
    requires |texts| == |pieces| && forall i :: 0 <= i < |texts| ==> pieces[i].text == (if i == 0 then "" else sep) + texts[i]
    ensures Join(texts, sep) == TextOf(pieces)
  {
    if texts != [] {
      var n := |texts| - 1;
      JoinPieces(texts[..n], sep, pieces[..n]);
      if n > 0 {
        assert TextOf(pieces) == Join(texts[..n], sep) + (sep + texts[n]);
      }
    }
  }

  lemma {:induction false} JoinOrders(orders: seq<Order>, texts: seq<string>)
    requires |texts| == |orders| && forall i :: 0 <= i < |orders| ==> texts[i] == OrderText(orders[i])
    ensures orders != [] ==> " ORDER BY " + Join(texts, ",") == TextOf(OrderPieces(orders))
  {
    if orders != [] {
      var n := |orders| - 1;
      JoinOrders(orders[..n], texts[..n]);
      assert OrderPieces(orders)[..n] == OrderPieces(orders[..n]);
    }
  }

  lemma {:induction false} OrderArgs(orders: seq<Order>)
    ensures ArgsOf(OrderPieces(orders)) == []
  {
    if orders != [] {
      var n := |orders| - 1;
      OrderArgs(orders[..n]);
      assert OrderPieces(orders)[..n] == OrderPieces(orders[..n]);
    }
  }

  // ----- the comparison operators

  const COMPARES: set<string> := {"=", ">", ">=", "<", "<=", "<>"}

  lemma CondFits(c: Condition, sep: string)
    requires c.compare in COMPARES && Marks(sep) == 0
    ensures Marks(sep + CondText(c)) == |CondArgs(c)| + Marks(c.key)
  {
    MarksAppend(sep, CondText(c));
    MarksZero(" `");
    match c.value
    case Many(vs) =>
      MarksAppend(" `", c.key);
      MarksAppend(" `" + c.key, "` IN (");
      MarksAppend(" `" + c.key + "` IN (", InList(|vs|));
      MarksAppend(" `" + c.key + "` IN (" + InList(|vs|), ")");
      MarksZero("` IN (");
      MarksZero(")");
      InListMarks(|vs|);
    case One(_) =>
      MarksAppend(" `", c.key);
      MarksAppend(" `" + c.key, "` ");
      MarksAppend(" `" + c.key + "` ", c.compare);
      MarksAppend(" `" + c.key + "` " + c.compare, " ?");
      MarksZero("` ");
      MarksZero(c.compare);
      MarksAppend(" ", "?");
      MarksOne(' ');
      MarksOne('?');
  }

  lemma OrderFits(o: Order, sep: string)
    requires Marks(sep) == 0
    ensures Marks(sep + OrderText(o)) == Marks(o.key)
  {
    MarksAppend(sep, OrderText(o));
    MarksAppend(o.key, if o.desc then " DESC" else " ASC");
    MarksZero(if o.desc then " DESC" else " ASC");
  }

  lemma LimitFits(limit: int, offset: int)
    ensures forall p <- LimitPieces(limit, offset) :: Fitted(p) && p.key == ""
  {
    MarksAppend(" LIMIT ", "?");
    MarksZero(" LIMIT ");
    MarksOne('?');
    MarksAppend(",", "?");
    MarksOne(',');
    assert " LIMIT " + "?" == " LIMIT ?" && "," + "?" == ",?";
  }

  /** Every statement the builder can make is made of fitted pieces. */
  lemma StatementFits(conds: seq<Condition>, orders: seq<Order>, limit: int, offset: int)
    requires forall c <- conds :: c.compare in COMPARES
    ensures forall p <- Statement(conds, orders, limit, offset) :: Fitted(p)
  {
    MarksZero(" AND");
    MarksZero(" ORDER BY ");
    MarksZero(",");
    forall i | 0 <= i < |conds|
      ensures Fitted(CondPieces(conds)[i])
    {
      CondFits(conds[i], if i == 0 then "" else " AND");
    }
    forall i | 0 <= i < |orders|
      ensures Fitted(OrderPieces(orders)[i])
    {
      OrderFits(orders[i], if i == 0 then " ORDER BY " else ",");
    }
    LimitFits(limit, offset);
  }

  lemma LimitIs(limit: int, offset: int)
    ensures TextOf(LimitPieces(limit, offset))
            == if limit <= 0 then "" else " LIMIT ?" + if offset > 0 then ",?" else ""
    ensures ArgsOf(LimitPieces(limit, offset))
            == if limit <= 0 then [] else (if offset > 0 then [Number(offset)] else []) + [Number(limit)]
  {
    var pieces := LimitPieces(limit, offset);
    if |pieces| == 2 {
      assert pieces[..1][..0] == [] && pieces[..1] == [pieces[0]];
      assert TextOf(pieces[..1]) == " LIMIT ?" && ArgsOf(pieces[..1]) == [Number(offset)];
    } else if |pieces| == 1 {
      assert pieces[..0] == [];
    }
  }

  lemma StatementText(conds: seq<Condition>, orders: seq<Order>, limit: int, offset: int)
    ensures var pieces := Statement(conds, orders, limit, offset);
            && TextOf(pieces) == TextOf(CondPieces(conds)) + TextOf(OrderPieces(orders)) + TextOf(LimitPieces(limit, offset))
            && ArgsOf(pieces) == ArgsOf(CondPieces(conds)) + ArgsOf(LimitPieces(limit, offset))
  {
    hide TextOf, ArgsOf, CondPieces, OrderPieces, LimitPieces;
    var cs, os, ls := CondPieces(conds), OrderPieces(orders), LimitPieces(limit, offset);
    PiecesAppend(cs + os, ls);
    PiecesAppend(cs, os);
    OrderArgs(orders);
  }

  lemma StatementMarks(conds: seq<Condition>, orders: seq<Order>, limit: int, offset: int)
    requires forall c <- conds :: c.compare in COMPARES
    ensures var pieces := Statement(conds, orders, limit, offset);
            Marks(TextOf(pieces)) == |ArgsOf(pieces)| <==>
              (forall c <- conds :: '?' !in c.key) && (forall o <- orders :: '?' !in o.key)
  {
    hide Marks, TextOf, ArgsOf, Statement, Fitted;
    StatementFits(conds, orders, limit, offset);
    Aligned(Statement(conds, orders, limit, offset));
    KeysOfStatement(conds, orders, limit, offset);
  }

  /** The parts put together are the statement, and its placeholders are its values' exactly if no key has one. */
  lemma Assembled(conds: seq<Condition>, orders: seq<Order>, limit: int, offset: int, sql: string, vals: seq<Val>)
    requires forall c <- conds :: c.compare in COMPARES
    requires sql == TextOf(CondPieces(conds)) + TextOf(OrderPieces(orders)) + TextOf(LimitPieces(limit, offset))
    requires vals == ArgsOf(CondPieces(conds)) + ArgsOf(LimitPieces(limit, offset))
    ensures var pieces := Statement(conds, orders, limit, offset); sql == TextOf(pieces) && vals == ArgsOf(pieces)
    ensures Marks(sql) == |vals| <==> (forall c <- conds :: '?' !in c.key) && (forall o <- orders :: '?' !in o.key)
    ensures Marks(" WHERE" + sql) == Marks(sql)
  {
    hide TextOf, ArgsOf, Statement, CondPieces, OrderPieces, LimitPieces, Marks;
    StatementText(conds, orders, limit, offset);
    StatementMarks(conds, orders, limit, offset);
    MarksAppend(" WHERE", sql);
    MarksZero(" WHERE");
  }

  /** The test for a statement that is only a limit or only an order is always true: no text begins both ways. */
  lemma PrefixesDiffer(s: string)
    ensures !(" LIMIT ?" <= s) || !(" ORDER BY " <= s)
  {
    assert " LIMIT ?"[1] != " ORDER BY "[1];
  }

  lemma KeysOfStatement(conds: seq<Condition>, orders: seq<Order>, limit: int, offset: int)
    ensures (forall p <- Statement(conds, orders, limit, offset) :: '?' !in p.key) <==>
            (forall c <- conds :: '?' !in c.key) && (forall o <- orders :: '?' !in o.key)
  {
    var cs, os, ls := CondPieces(conds), OrderPieces(orders), LimitPieces(limit, offset);
    assert forall p <- Statement(conds, orders, limit, offset) :: p in cs || p in os || p in ls;
    assert forall p :: p in cs || p in os || p in ls ==> p in Statement(conds, orders, limit, offset);
    KeysOfConds(conds);
    KeysOfOrders(orders);
    LimitFits(limit, offset);
  }

  lemma KeysOfConds(conds: seq<Condition>)
    ensures (forall p <- CondPieces(conds) :: '?' !in p.key) <==> forall c <- conds :: '?' !in c.key
  {
    if forall p <- CondPieces(conds) :: '?' !in p.key {
      forall i | 0 <= i < |conds|
        ensures '?' !in conds[i].key
      {
        assert CondPieces(conds)[i].key == conds[i].key;
      }
    }
  }

  lemma KeysOfOrders(orders: seq<Order>)
    ensures (forall p <- OrderPieces(orders) :: '?' !in p.key) <==> forall o <- orders :: '?' !in o.key
  {
    if forall p <- OrderPieces(orders) :: '?' !in p.key {
      forall i | 0 <= i < |orders|
        ensures '?' !in orders[i].key
      {
        assert OrderPieces(orders)[i].key == orders[i].key;
      }
    }
  }

  // ----- the builder

  ghost function Operator(compare: string): string {
    if compare in {"=", ">", ">=", "<", "<=", "<>"} then compare else "="
  }

  function TrimLeft(s: string): string {
    if s != [] && s[0] == ' ' then TrimLeft(s[1..]) else s
  }

  function TrimRight(s: string): string {
    if s != [] && s[|s| - 1] == ' ' then TrimRight(s[..|s| - 1]) else s
  }

  /** `strings.Trim(s, " ")`. */
  function Trim(s: string): string {
    TrimRight(TrimLeft(s))
  }

  ghost predicate Blank(s: string) {
    forall c <- s :: c == ' '
  }

  lemma {:induction false} TrimLeftIs(s: string) returns (pad: string)
    ensures Blank(pad) && s == pad + TrimLeft(s) && (TrimLeft(s) != [] ==> TrimLeft(s)[0] != ' ')
  {
    pad := "";
    if s != [] && s[0] == ' ' {
      pad := TrimLeftIs(s[1..]);
      pad := [s[0]] + pad;
      assert s == [s[0]] + s[1..];
    }
  }

  lemma {:induction false} TrimRightIs(s: string) returns (pad: string)
    ensures Blank(pad) && s == TrimRight(s) + pad && (TrimRight(s) != [] ==> TrimRight(s)[|TrimRight(s)| - 1] != ' ')
  {
    pad := "";
    if s != [] && s[|s| - 1] == ' ' {
      pad := TrimRightIs(s[..|s| - 1]);
      pad := pad + [s[|s| - 1]];
      assert s == s[..|s| - 1] + [s[|s| - 1]];
    }
  }

  /** Trimming takes the blanks at both ends, all of them and nothing else. */
  lemma TrimIsExact(s: string) returns (left: string, right: string)
    ensures Blank(left) && Blank(right) && s == left + Trim(s) + right
    ensures Trim(s) != [] ==> Trim(s)[0] != ' ' && Trim(s)[|Trim(s)| - 1] != ' '
  {
    left := TrimLeftIs(s);
    right := TrimRightIs(TrimLeft(s));
  }

  lemma {:induction false} TrimLeftKeeps(s: string, c: char)
    requires c != ' '
    ensures c in TrimLeft(s) <==> c in s
  {
    if s != [] && s[0] == ' ' {
      TrimLeftKeeps(s[1..], c);
      assert s == [s[0]] + s[1..];
    }
  }

  lemma {:induction false} TrimRightKeeps(s: string, c: char)
    requires c != ' '
    ensures c in TrimRight(s) <==> c in s
  {
    if s != [] && s[|s| - 1] == ' ' {
      TrimRightKeeps(s[..|s| - 1], c);
      assert s == s[..|s| - 1] + [s[|s| - 1]];
    }
  }

  /** Neither trimming, quoting nor escaping makes or hides a placeholder. */
  lemma KeyKeepsMarks(key: string)
    ensures '?' in Escape(Trim(key)) <==> '?' in key
    ensures '?' in Escape("`" + Trim(key) + "`") <==> '?' in key
  {
    TrimLeftKeeps(key, '?');
    TrimRightKeeps(TrimLeft(key), '?');
    EscapeKeepsMarks(Trim(key));
    EscapeKeepsMarks("`" + Trim(key) + "`");
  }

  lemma EscapeKeepsMarks(s: string)
    ensures '?' in Escape(s) <==> '?' in s
  {
    MarksEscape(s);
    MarksZero(s);
    MarksZero(Escape(s));
  }

  class SqlCondition {
    var tableprefix: string
    var conds: seq<Condition>
    var order: seq<Order>
    var offset: int
    var limit: int

    /** What every chain of builder calls keeps. */
    ghost predicate Valid()
      reads this
    {
      && limit >= 0 && offset >= 0
      && (forall c <- conds :: c.compare in COMPARES && NoBareQuote(c.key))
      && (forall o <- order :: NoBareQuote(o.key))
      && NoBareQuote(tableprefix)
    }

    constructor ()
      ensures Valid() && tableprefix == "" && conds == [] && order == [] && offset == 0 && limit == 300
    {
      tableprefix, conds, order, offset, limit := "", [], [], 0, 300;
    }

    method WithTablePrefix(tablePrefix: string)
      requires Valid()
      modifies `tableprefix
      ensures Valid() && tableprefix == Escape(tablePrefix)
    {
      EscapeRoundTrip(tablePrefix);
      tableprefix := MysqlEscapeString(tablePrefix);
    }

    /** A blank key adds nothing; an operator that is not on the list becomes equality. */
    method WithCondition(key: string, compare: string, value: Value)
      requires Valid()
      modifies `conds
      ensures Valid()
      ensures Trim(key) == "" ==> conds == old(conds)
      ensures Trim(key) != "" ==>
                && |conds| == |old(conds)| + 1 && conds[..|old(conds)|] == old(conds)
                && conds[|old(conds)|] == Condition(Escape(Trim(key)), Operator(Trim(compare)), value)
                && Unescape(conds[|conds| - 1].key) == Trim(key)
                && ('?' in conds[|conds| - 1].key <==> '?' in key)
    {
      KeyKeepsMarks(key);
      var key, compare := Trim(key), Trim(compare);
      if key != "" {
        if compare !in COMPARES {
          compare := "=";
        }
        EscapeRoundTrip(key);
        var escaped := MysqlEscapeString(key);
        var c := Condition(escaped, compare, value);
        conds := conds + [c];
      }
    }

    /** The key is quoted before it is tested, so even a blank one orders. */
    method WithOrder(key: string, isdesc: bool)
      requires Valid()
      modifies `order
      ensures Valid()
      ensures order == old(order) + [Order(Escape("`" + Trim(key) + "`"), isdesc)]
      ensures Unescape(order[|order| - 1].key) == "`" + Trim(key) + "`"
      ensures '?' in order[|order| - 1].key <==> '?' in key
    {
      KeyKeepsMarks(key);
      var key := "`" + Trim(key) + "`";
      if key != "" {
        EscapeRoundTrip(key);
        var escaped := MysqlEscapeString(key);
        var o := Order(escaped, isdesc);
        order := order + [o];
      }
    }

    method WithLimit(limit: int)
      requires Valid()
      modifies `limit
      ensures Valid() && this.limit == if limit >= 0 then limit else old(this.limit)
    {
      if limit >= 0 {
        this.limit := limit;
      }
    }

    method WithOffset(offset: int)
      requires Valid()
      modifies `offset
      ensures Valid() && this.offset == if offset > 0 then offset else old(this.offset)
    {
      if offset > 0 {
        this.offset := offset;
      }
    }

    /** The texts and the values of the conditions. */
    method Conditions() returns (condStr: string, valHolder: seq<Val>)
      ensures condStr == TextOf(CondPieces(conds)) && valHolder == ArgsOf(CondPieces(conds))
    {
      hide CondText, CondArgs;
      var placeholder: seq<string> := [];
      valHolder := [];
      for i := 0 to |conds|
        invariant |placeholder| == i && forall j :: 0 <= j < i ==> placeholder[j] == CondText(conds[j])
        invariant valHolder == ArgsOf(CondPieces(conds)[..i])
      {
        var str, args := Placeholder(conds[i]);
        assert CondPieces(conds)[..i + 1][..i] == CondPieces(conds)[..i];
        valHolder, placeholder := valHolder + args, placeholder + [str];
      }
      JoinPieces(placeholder, " AND", CondPieces(conds));
      assert CondPieces(conds)[..|conds|] == CondPieces(conds);
      condStr := Join(placeholder, " AND");
    }

    method OrderClause() returns (text: string, ghost orderHolder: seq<string>)
      ensures text == TextOf(OrderPieces(order))
      ensures |orderHolder| == |order|
      ensures forall i :: 0 <= i < |order| ==> orderHolder[i] == order[i].key + if order[i].desc then " DESC" else " ASC"
      ensures text == if order == [] then "" else " ORDER BY " + Join(orderHolder, ",")
    {
      if |order| == 0 {
        return "", [];
      }
      var holder: seq<string> := [];
      for i := 0 to |order|
        invariant |holder| == i
        invariant forall j :: 0 <= j < i ==> holder[j] == OrderText(order[j])
        invariant forall j :: 0 <= j < i ==> holder[j] == order[j].key + if order[j].desc then " DESC" else " ASC"
      {
        holder := holder + [order[i].key + if order[i].desc then " DESC" else " ASC"];
      }
      JoinOrders(order, holder);
      text, orderHolder := " ORDER BY " + Join(holder, ","), holder;
    }

    method LimitClause() returns (text: string, args: seq<Val>)
      ensures text == TextOf(LimitPieces(limit, offset)) && args == ArgsOf(LimitPieces(limit, offset))
      ensures limit <= 0 ==> text == "" && args == []
      ensures limit > 0 && offset <= 0 ==> text == " LIMIT ?" && args == [Number(limit)]
      ensures limit > 0 && offset > 0 ==> text == " LIMIT ?,?" && args == [Number(offset), Number(limit)]
    {
      text, args := "", [];
      if limit > 0 {
        text := " LIMIT ?";
        if offset > 0 {
          text := text + ",?";
          args := args + [Number(offset)];
        }
        args := args + [Number(limit)];
      }
      LimitIs(limit, offset);
    }

    /** `BuildShardWhereSql`: the statement, piece by piece, and the values in the order of its placeholders. */
    method BuildShardWhereSql(shardKey: string) returns (tableName: string, sql: string, vals: seq<Val>)
      requires Valid()
      ensures tableName == Escape(tableprefix + shardKey)
      ensures var pieces := Statement(conds, order, limit, offset);
              sql == (if TextOf(pieces) == "" then "" else " WHERE" + TextOf(pieces)) && vals == ArgsOf(pieces)
      ensures Marks(sql) == |vals| <==>
                (forall c <- conds :: '?' !in c.key) && (forall o <- order :: '?' !in o.key)
    {
      tableName := MysqlEscapeString(tableprefix + shardKey);
      hide Marks, TextOf, ArgsOf, Escape, CondPieces, OrderPieces, LimitPieces, Statement;
      sql, vals := Conditions();
      var orders, _ := OrderClause();
      var limits, args := LimitClause();
      sql, vals := sql + orders + limits, vals + args;
      Assembled(conds, order, limit, offset, sql, vals);
      PrefixesDiffer(sql);
      if sql != "" && (!(" LIMIT ?" <= sql) || !(" ORDER BY " <= sql)) {
        sql := " WHERE" + sql;
      }
    }
  }

  method Placeholder(c: Condition) returns (str: string, args: seq<Val>)
    ensures str == CondText(c) && args == CondArgs(c)
    ensures c.value.One? ==> str == " `" + c.key + "` " + c.compare + " ?" && args == [c.value.v]
    ensures c.value.Many? ==> str == " `" + c.key + "` IN (" + InList(|c.value.vs|) + ")" && args == c.value.vs
  {
    match c.value
    case Many(vs) =>
      var list := MakeSqlPlaceHolderForIn(vs);
      return " `" + c.key + "` IN " + list, vs;
    case One(v) =>
      return " `" + c.key + "` " + c.compare + " ?", [v];
  }

  // ----- the plain builder over a map

  function EqText(key: string, value: Value): string {
    match value
    case Many(vs) => " `" + key + "` in (" + InList(|vs|) + ") "
    case One(_) => " `" + key + "` = ? "
  }

  function ValueArgs(value: Value): seq<Val> {
    match value case Many(vs) => vs case One(v) => [v]
  }

  function EqPiece(sep: string, key: string, value: Value): Piece {
    Piece(sep + EqText(Escape(key), value), ValueArgs(value), Escape(key))
  }

  /** The keys of the map in some order, with their clauses. */
  function MapPieces(keys: seq<string>, data: map<string, Value>): (pieces: seq<Piece>)
    requires forall k <- keys :: k in data
    ensures |pieces| == |keys|
    ensures forall i :: 0 <= i < |keys| ==> pieces[i] == EqPiece(if i == 0 then "" else "AND", keys[i], data[keys[i]])
  {
    seq(|keys|, i requires 0 <= i < |keys| => EqPiece(if i == 0 then "" else "AND", keys[i], data[keys[i]]))
  }

  lemma EqFitsMany(k: string, vs: seq<Val>)
    ensures Marks(EqText(k, Many(vs))) == |vs| + Marks(k)
  {
    var open, list := "` in (", InList(|vs|);
    MarksAppend(" `", k);
    MarksAppend(" `" + k, open);
    MarksAppend(" `" + k + open, list);
    MarksAppend(" `" + k + open + list, ") ");
    MarksZero(" `");
    MarksZero(open);
    MarksZero(") ");
    InListMarks(|vs|);
  }

  lemma EqFitsOne(k: string, v: Val)
    ensures Marks(EqText(k, One(v))) == 1 + Marks(k)
  {
    MarksAppend(" `", k);
    MarksAppend(" `" + k, "` = ? ");
    MarksAppend("` = ", "? ");
    MarksAppend("?", " ");
    MarksZero(" `");
    MarksZero("` = ");
    MarksOne('?');
    MarksOne(' ');
    assert "` = " + "? " == "` = ? " && "?" + " " == "? ";
  }

  lemma EqFits(sep: string, key: string, value: Value)
    requires Marks(sep) == 0
    ensures Fitted(EqPiece(sep, key, value))
  {
    var k := Escape(key);
    hide Marks, EqText, InList, Escape;
    MarksAppend(sep, EqText(k, value));
    match value
    case Many(vs) => EqFitsMany(k, vs);
    case One(v) => EqFitsOne(k, v);
  }

  lemma MapFits(keys: seq<string>, data: map<string, Value>)
    requires forall k <- keys :: k in data
    ensures Marks(TextOf(MapPieces(keys, data))) == |ArgsOf(MapPieces(keys, data))| <==> forall k <- keys :: '?' !in k
  {
    hide EqPiece, Fitted, TextOf, ArgsOf, Marks;
    var pieces := MapPieces(keys, data);
    MarksZero("AND");
    MarksZero("");
    forall i | 0 <= i < |keys|
      ensures Fitted(pieces[i]) && ('?' !in pieces[i].key <==> '?' !in keys[i])
    {
      EqFits(if i == 0 then "" else "AND", keys[i], data[keys[i]]);
      EqPieceKey(if i == 0 then "" else "AND", keys[i], data[keys[i]]);
    }
    Aligned(pieces);
    assert forall i :: 0 <= i < |keys| ==> pieces[i] in pieces && keys[i] in keys;
  }

  lemma EqPieceKey(sep: string, key: string, value: Value)
    ensures '?' !in EqPiece(sep, key, value).key <==> '?' !in key
  {
    EscapeKeepsMarks(key);
  }

  lemma NoArgs(data: map<string, Value>)
    ensures ArgsOf(MapPieces([], data)) == []
  {
  }

  lemma MapMore(keys: seq<string>, data: map<string, Value>, key: string)
    requires key in data && forall k <- keys :: k in data
    ensures ArgsOf(MapPieces(keys + [key], data)) == ArgsOf(MapPieces(keys, data)) + ValueArgs(data[key])
  {
    hide EqText, Escape, ValueArgs;
    assert MapPieces(keys + [key], data)[..|keys|] == MapPieces(keys, data);
  }

  /** `buildWhereSql`: the clauses come in whatever order the map is walked, and the values in the same. */
  method BuildWhereSql(data: map<string, Value>) returns (sql: string, vals: seq<Val>, ghost keys: seq<string>)
    ensures |keys| == |data| && forall k :: k in keys <==> k in data
    ensures sql == TextOf(MapPieces(keys, data)) && vals == ArgsOf(MapPieces(keys, data))
    ensures Marks(sql) == |vals| <==> forall k <- data.Keys :: '?' !in k
  {
    hide EqText, ValueArgs, TextOf, ArgsOf, Escape, Marks, Join;
    var placeholder: seq<string> := [];
    keys, vals := [], [];
    NoArgs(data);
    var todo := data.Keys;
    while todo != {}
      invariant todo <= data.Keys && |placeholder| == |keys| && |keys| + |todo| == |data|
      invariant forall k :: k in keys <==> k in data.Keys - todo
      invariant forall i :: 0 <= i < |keys| ==> keys[i] in data && placeholder[i] == EqText(Escape(keys[i]), data[keys[i]])
      invariant vals == ArgsOf(MapPieces(keys, data))
    {
      var idx :| idx in todo;
      todo := todo - {idx};
      var str, args := EqClause(idx, data[idx]);
      MapMore(keys, data, idx);
      keys, vals, placeholder := keys + [idx], vals + args, placeholder + [str];
    }
    JoinPieces(placeholder, "AND", MapPieces(keys, data));
    MapFits(keys, data);
    sql := Join(placeholder, "AND");
  }

  method EqClause(key: string, value: Value) returns (str: string, args: seq<Val>)
    ensures str == EqText(Escape(key), value) && args == ValueArgs(value)
    ensures value.One? ==> str == " `" + Escape(key) + "` = ? " && args == [value.v]
    ensures value.Many? ==> str == " `" + Escape(key) + "` in (" + InList(|value.vs|) + ") " && args == value.vs
  {
    var k := MysqlEscapeString(key);
    match value
    case Many(vs) =>
      var list := MakeSqlPlaceHolderForIn(vs);
      assert " `" + k + "` in (" + InList(|vs|) + ") " == " `" + k + "` in " + list + " ";
      return " `" + k + "` in " + list + " ", vs;
    case One(v) =>
      return " `" + k + "` = ? ", [v];
  }
}
