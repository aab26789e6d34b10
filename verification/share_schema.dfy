/**
 * The share-card parameter schema: every field of the card is read from
 * the query parameters, missing ones take literal defaults, `theme` and
 * `ratio` are enum-checked, `verified` becomes a boolean and `privacy`
 * passes through unchecked.
 */
module ShareSchema {
  import opened Wrappers
  import opened Zod

  /** Query parameters, by name. */
  type Params = map<string, string>

  datatype Theme = Light | Dark
  datatype Ratio = Square | Landscape | Portrait

  datatype ShareCard = ShareCard(
    theme: Theme,
    ratio: Ratio,
    image: string,
    name: string,
    username: string,
    verified: bool,
    createdAt: string,
    campus: string,
    program: string,
    content: string,
    privacy: string,
    likes: string,
    comments: string)

  const DefaultContent := "Lorem ipsum, dolor sit amet consectetur adipisicing elit. Ea laboriosam eos, alias a sed odit dolorem dignissimos at reprehenderit repudiandae ullam doloribus nobis quod aliquam asperiores blanditiis nostrum labore placeat? Minus delectus voluptas repellat totam officia, quidem a quas alias necessitatibus voluptatem,"

  /** The card a request with no parameters decodes to. */
  const DefaultCard := ShareCard(
    Light, Square, "https://github.com/bricesuazo.png", "Brice Suazo", "bricesuazo", true,
    "5 days ago", "MAIN", "BSCS", DefaultContent, "following", "12", "0")

  function ThemeName(t: Theme): string {
    match t
    case Light => "light"
    case Dark => "dark"
  }

  function RatioName(r: Ratio): string {
    match r
    case Square => "square"
    case Landscape => "landscape"
    case Portrait => "portrait"
  }

  /** A string field: the supplied value, or the default when the parameter is absent. */
  function StringField(params: Params, key: string, default: string): (r: string)
    ensures key in params ==> r == params[key]
    ensures key !in params ==> r == default
  {
    if key in params then params[key] else default
  }

  /** `verified`: the default is "true", and only the exact string "true" is true. */
  function DecodeVerified(params: Params): (r: bool)
    ensures r <==> "verified" !in params || params["verified"] == "true"
  {
    StringField(params, "verified", "true") == "true"
  }

  function DecodeTheme(params: Params): (r: Result<Theme, Issue>)
    ensures r.Success? <==> "theme" !in params || params["theme"] in {"light", "dark"}
    ensures r.Success? ==> ThemeName(r.value) == StringField(params, "theme", "light")
  {
    var v := StringField(params, "theme", "light");
    if v == "light" then Success(Light)
    else if v == "dark" then Success(Dark)
    else Failure(InvalidEnumValue("theme", ["light", "dark"], v))
  }

  function DecodeRatio(params: Params): (r: Result<Ratio, Issue>)
    ensures r.Success? <==> "ratio" !in params || params["ratio"] in {"square", "landscape", "portrait"}
    ensures r.Success? ==> RatioName(r.value) == StringField(params, "ratio", "square")
  {
    var v := StringField(params, "ratio", "square");
    if v == "square" then Success(Square)
    else if v == "landscape" then Success(Landscape)
    else if v == "portrait" then Success(Portrait)
    else Failure(InvalidEnumValue("ratio", ["square", "landscape", "portrait"], v))
  }

  /** The issues of the two enum fields, in field order. */
  function EnumIssues(theme: Result<Theme, Issue>, ratio: Result<Ratio, Issue>): seq<Issue> {
    (if theme.Failure? then [theme.error] else []) + (if ratio.Failure? then [ratio.error] else [])
  }

  /** Decodes the share-card parameters; unknown parameters are ignored. */
  function DecodeShareCard(params: Params): (r: Result<ShareCard, seq<Issue>>)
    ensures r.Success? <==> DecodeTheme(params).Success? && DecodeRatio(params).Success?
    ensures r.Failure? ==> 1 <= |r.error| <= 2
    ensures r.Success? ==>
      && r.value.theme == DecodeTheme(params).value
      && r.value.ratio == DecodeRatio(params).value
      && r.value.image == StringField(params, "image", DefaultCard.image)
      && r.value.name == StringField(params, "name", DefaultCard.name)
      && r.value.username == StringField(params, "username", DefaultCard.username)
      && r.value.verified == DecodeVerified(params)
      && r.value.createdAt == StringField(params, "created_at", DefaultCard.createdAt)
      && r.value.campus == StringField(params, "campus", DefaultCard.campus)
      && r.value.program == StringField(params, "program", DefaultCard.program)
      && r.value.content == StringField(params, "content", DefaultContent)
      && r.value.privacy == StringField(params, "privacy", DefaultCard.privacy)
      && r.value.likes == StringField(params, "likes", DefaultCard.likes)
      && r.value.comments == StringField(params, "comments", DefaultCard.comments)
  {
    var theme := DecodeTheme(params);
    var ratio := DecodeRatio(params);
    if theme.Failure? || ratio.Failure? then Failure(EnumIssues(theme, ratio))
    else Success(ShareCard(
      theme.value,
      ratio.value,
      StringField(params, "image", DefaultCard.image),
      StringField(params, "name", DefaultCard.name),
      StringField(params, "username", DefaultCard.username),
      DecodeVerified(params),
      StringField(params, "created_at", DefaultCard.createdAt),
      StringField(params, "campus", DefaultCard.campus),
      StringField(params, "program", DefaultCard.program),
      StringField(params, "content", DefaultContent),
      StringField(params, "privacy", DefaultCard.privacy),
      StringField(params, "likes", DefaultCard.likes),
      StringField(params, "comments", DefaultCard.comments)))
  }

  /** The parameters that describe a card; `verified` is written as "true" or "false". */
  function EncodeShareCard(c: ShareCard): (p: Params)
    ensures p.Keys == {"theme", "ratio", "image", "name", "username", "verified", "created_at",
                       "campus", "program", "content", "privacy", "likes", "comments"}
  {
    map["theme" := ThemeName(c.theme), "ratio" := RatioName(c.ratio), "image" := c.image,
        "name" := c.name, "username" := c.username, "verified" := if c.verified then "true" else "false",
        "created_at" := c.createdAt, "campus" := c.campus, "program" := c.program,
        "content" := c.content, "privacy" := c.privacy, "likes" := c.likes, "comments" := c.comments]
  }

  /** No parameters at all give the default card. */
  lemma EmptyParamsGiveDefault()
    ensures DecodeShareCard(map[]) == Success(DefaultCard)
  {
  }

  /** Every card survives encoding to parameters and decoding back. */
  lemma EncodeDecodeRoundTrip(c: ShareCard)
    ensures DecodeShareCard(EncodeShareCard(c)) == Success(c)
  {
    var p := EncodeShareCard(c);
    assert DecodeTheme(p) == Success(c.theme) by {
      assert p["theme"] == ThemeName(c.theme);
    }
    assert DecodeRatio(p) == Success(c.ratio) by {
      assert p["ratio"] == RatioName(c.ratio);
    }
    assert DecodeVerified(p) == c.verified by {
      assert p["verified"] == if c.verified then "true" else "false";
    }
  }

  /** Only the exact lower-case "true" is true: "True" and "1" decode to false. */
  lemma VerifiedIsCaseSensitive()
    ensures !DecodeVerified(map["verified" := "True"])
    ensures !DecodeVerified(map["verified" := "1"])
    ensures DecodeVerified(map["verified" := "true"])
  {
  }

  /** `privacy` is not validated: any supplied string comes through unchanged. */
  lemma PrivacyUnchecked(privacy: string)
    ensures DecodeShareCard(map["privacy" := privacy]).Success?
    ensures DecodeShareCard(map["privacy" := privacy]).value.privacy == privacy
  {
    var p := map["privacy" := privacy];
    assert "theme" !in p && "ratio" !in p;
  }
}
