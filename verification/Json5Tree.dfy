/** Concrete syntax trees of JSON5 documents: every character of the document has a place in its tree. */
module Json5Tree {
  import opened Json5Text

  /** What stands before a member's value: trivia, key, trivia, a colon, trivia. */
  datatype Lead = Lead(pre: string, key: string, mid: string, gap: string)

  datatype Tree = Scalar(text: string) | Object(fields: Fields) | Array(items: Items)

  /** The inside of an object, up to and including its closing brace. */
  datatype Fields = NoField(trivia: string) | Field(lead: Lead, value: Tree, post: string, rest: More)
  datatype More = Closed | Comma(next: Fields)

  /** The inside of an array, up to and including its closing bracket. */
  datatype Items = NoItem(trivia: string) | Item(pre: string, value: Tree, post: string, rest: MoreItems)
  datatype MoreItems = ClosedItems | CommaItems(next: Items)

  // The document a tree stands for.

  function LeadText(l: Lead): string { l.pre + l.key + l.mid + ":" + l.gap }

  function Text(t: Tree): string {
    match t
    case Scalar(text) => text
    case Object(f) => "{" + FieldsText(f)
    case Array(i) => "[" + ItemsText(i)
  }

  function FieldsText(f: Fields): string {
    match f
    case NoField(trivia) => trivia + "}"
    case Field(l, v, post, rest) => LeadText(l) + Text(v) + post + MoreText(rest)
  }

  function MoreText(r: More): string {
    match r case Closed => "}" case Comma(f) => "," + FieldsText(f)
  }

  function ItemsText(i: Items): string {
    match i
    case NoItem(trivia) => trivia + "]"
    case Item(pre, v, post, rest) => pre + Text(v) + post + MoreItemsText(rest)
  }

  function MoreItemsText(r: MoreItems): string {
    match r case ClosedItems => "]" case CommaItems(i) => "," + ItemsText(i)
  }

  // Tokens.

  predicate Quote(c: char) { c == '\'' || c == '"' }

  predicate Delimiter(c: char) { c == ',' || c == ']' || c == '}' }

  /** The length of an unquoted value. */
  function PlainLength(s: string): (n: nat)
    ensures n <= |s|
  {
    if s == "" || Delimiter(s[0]) || StartsComment(s) || Skippable(s[0]) then 0 else 1 + PlainLength(s[1..])
  }

  /** The length of an unquoted key. */
  function NameLength(s: string): (n: nat)
    ensures n <= |s|
  {
    if s == "" || s[0] == ':' || StartsComment(s) || Skippable(s[0]) then 0 else 1 + NameLength(s[1..])
  }

  /** The length of a string from behind its opening quote to behind its closing one; 0 when it does not end. */
  function StringLength(quote: char, s: string): (n: nat)
    ensures n <= |s|
    decreases |s|
  {
    if s == "" then 0
    else if s[0] == quote then 1
    else
      var step := if s[0] != '\\' then 1 else if |s| > 2 && s[1] == '\r' && s[2] == '\n' then 3 else 2;
      if step > |s| || StringLength(quote, s[step..]) == 0 then 0 else step + StringLength(quote, s[step..])
  }

  predicate Quoted(x: string) { |x| >= 2 && Quote(x[0]) && StringLength(x[0], x[1..]) == |x| - 1 }

  /** An unquoted value. JSON5 has no slash outside strings and comments. */
  predicate Plain(x: string) {
    x != "" && PlainLength(x) == |x| && '/' !in x && !Quote(x[0]) && x[0] != '{' && x[0] != '['
  }

  predicate Name(x: string) {
    x != "" && NameLength(x) == |x| && '/' !in x && !Quote(x[0]) && x[0] != '}'
  }

  // Trees of well-formed documents.

  predicate WfLead(l: Lead) {
    Trivia(l.pre) && (Quoted(l.key) || Name(l.key)) && Trivia(l.mid) && Trivia(l.gap)
  }

  predicate Wf(t: Tree) {
    match t
    case Scalar(x) => Quoted(x) || Plain(x)
    case Object(f) => WfFields(f)
    case Array(i) => WfItems(i)
  }

  predicate WfFields(f: Fields) {
    match f
    case NoField(trivia) => Trivia(trivia)
    case Field(l, v, post, rest) => WfLead(l) && Wf(v) && Trivia(post) && (rest.Comma? ==> WfFields(rest.next))
  }

  predicate WfItems(i: Items) {
    match i
    case NoItem(trivia) => Trivia(trivia)
    case Item(pre, v, post, rest) => Trivia(pre) && Wf(v) && Trivia(post) && (rest.CommaItems? ==> WfItems(rest.next))
  }

  // Reading a document.

  datatype Parsed<T> = Bad | Good(value: T, rest: string)

  function KeyLength(s: string): (n: nat)
    ensures n <= |s|
  {
    if s == "" || s[0] == '}' then 0
    else if Quote(s[0]) then (var n := StringLength(s[0], s[1..]); if n == 0 then 0 else n + 1)
    else if '/' in s[..NameLength(s)] then 0
    else NameLength(s)
  }

  /** From behind a key to its value: the trivia around the colon. */
  function ParseColon(s: string): (r: Parsed<(string, string)>)
    ensures r.Good? ==> 0 < |r.rest| < |s|
  {
    var b := Skip(s);
    if b == |s| || s[b] != ':' then Bad
    else
      var w := s[b + 1..];
      if Skip(w) == |w| then Bad else Good((s[..b], w[..Skip(w)]), w[Skip(w)..])
  }

  function ParseLead(s: string): (r: Parsed<Lead>)
    ensures r.Good? ==> 0 < |r.rest| < |s|
  {
    var a := Skip(s);
    var u := s[a..];
    var k := KeyLength(u);
    if k == 0 then Bad
    else match ParseColon(u[k..]) case Bad => Bad case Good(p, w) => Good(Lead(s[..a], u[..k], p.0, p.1), w)
  }

  function ParseScalar(s: string): (r: Parsed<Tree>)
    requires s != ""
    ensures r.Good? ==> |r.rest| < |s|
  {
    var n := if Quote(s[0]) then (var n := StringLength(s[0], s[1..]); if n == 0 then 0 else n + 1)
             else if '/' in s[..PlainLength(s)] then 0
             else PlainLength(s);
    if n == 0 then Bad else Good(Scalar(s[..n]), s[n..])
  }

  function ParseValue(s: string): (r: Parsed<Tree>)
    ensures r.Good? ==> |r.rest| < |s|
    decreases |s|, 0
  {
    if s == "" then Bad
    else if s[0] == '{' then match ParseFields(s[1..]) case Bad => Bad case Good(f, w) => Good(Object(f), w)
    else if s[0] == '[' then match ParseItems(s[1..]) case Bad => Bad case Good(i, w) => Good(Array(i), w)
    else ParseScalar(s)
  }

  function ParseFields(s: string): (r: Parsed<Fields>)
    ensures r.Good? ==> |r.rest| < |s|
    decreases |s|, 1
  {
    var a := Skip(s);
    if a < |s| && s[a] == '}' then Good(NoField(s[..a]), s[a + 1..])
    else
      match ParseLead(s)
      case Bad => Bad
      case Good(l, u) =>
        match ParseValue(u)
        case Bad => Bad
        case Good(v, w) => match ParseMore(w) case Bad => Bad case Good(p, z) => Good(Field(l, v, p.0, p.1), z)
  }

  /** From behind a member's value: trivia, and either the end of the object or a comma and the rest. */
  function ParseMore(s: string): (r: Parsed<(string, More)>)
    ensures r.Good? ==> |r.rest| < |s|
    decreases |s|, 0
  {
    var d := Skip(s);
    if d == |s| then Bad
    else if s[d] == '}' then Good((s[..d], Closed), s[d + 1..])
    else if s[d] != ',' then Bad
    else match ParseFields(s[d + 1..]) case Bad => Bad case Good(f, z) => Good((s[..d], Comma(f)), z)
  }

  function ParseItems(s: string): (r: Parsed<Items>)
    ensures r.Good? ==> |r.rest| < |s|
    decreases |s|, 1
  {
    var a := Skip(s);
    if a < |s| && s[a] == ']' then Good(NoItem(s[..a]), s[a + 1..])
    else
      match ParseValue(s[a..])
      case Bad => Bad
      case Good(v, w) => match ParseMoreItems(w) case Bad => Bad case Good(p, z) => Good(Item(s[..a], v, p.0, p.1), z)
  }

  function ParseMoreItems(s: string): (r: Parsed<(string, MoreItems)>)
    ensures r.Good? ==> |r.rest| < |s|
    decreases |s|, 0
  {
    var d := Skip(s);
    if d == |s| then Bad
    else if s[d] == ']' then Good((s[..d], ClosedItems), s[d + 1..])
    else if s[d] != ',' then Bad
    else match ParseItems(s[d + 1..]) case Bad => Bad case Good(i, z) => Good((s[..d], CommaItems(i)), z)
  }

  // Whole documents.

  /** A value with the trivia around it. A comment at the very end needs no line break. */
  datatype Document = Document(pre: string, root: Tree, post: string)

  predicate WfDocument(d: Document) {
    Trivia(d.pre) && Wf(d.root) && Skip(d.post) == |d.post|
  }

  function DocumentText(d: Document): string { d.pre + Text(d.root) + d.post }

  function ParseDocument(s: string): Parsed<Document> {
    var a := Skip(s);
    match ParseValue(s[a..])
    case Bad => Bad
    case Good(t, w) => if Skip(w) == |w| then Good(Document(s[..a], t, w), "") else Bad
  }
}
