/**
  The upload-signing endpoint: the parameters it signs, their canonical
  `key=value&...` string in sorted key order, and the response for each outcome.
  SHA-1 is a parameter; the timestamp is carried as the text it prints as.
*/
module CloudinarySign {
  import opened Wrappers
  import LexOrder
  import Errors

  /** The server's environment variables that the endpoint reads. */
  datatype Env = Env(apiSecret: Option<string>, cloudName: Option<string>, apiKey: Option<string>, uploadFolder: Option<string>)

  /** The request body's fields; a missing or `null` field is `None`. */
  datatype SignRequest = SignRequest(timestamp: string, folder: Option<string>, publicId: Option<string>)

  /** A 200 with the signing material, or an error status with its message. */
  datatype Response =
    | Signed(cloudName: string, apiKey: string, signature: string, params: map<string, string>)
    | Failed(status: int, error: string)

  /** JavaScript truthiness of an optional string: present and non-empty. */
  predicate Truthy(v: Option<string>) {
    v.Some? && v.value != ""
  }

  /** The secret, the cloud name and the API key are all set and non-empty. */
  predicate Configured(env: Env) {
    Truthy(env.apiSecret) && Truthy(env.cloudName) && Truthy(env.apiKey)
  }

  /**
    `paramsToSign`: the timestamp; the folder from the body, else from the
    environment, else "accounting" (an empty folder is kept); and the public id only
    when it is non-empty.
  */
  function ParamsToSign(req: SignRequest, env: Env): (m: map<string, string>)
    ensures m.Keys == {"timestamp", "folder"} + (if Truthy(req.publicId) then {"public_id"} else {})
    ensures m["timestamp"] == req.timestamp
    ensures req.folder.Some? ==> m["folder"] == req.folder.value
    ensures req.folder.None? && env.uploadFolder.Some? ==> m["folder"] == env.uploadFolder.value
    ensures req.folder.None? && env.uploadFolder.None? ==> m["folder"] == "accounting"
    ensures Truthy(req.publicId) ==> m["public_id"] == req.publicId.value
  {
    var base := map["timestamp" := req.timestamp, "folder" := req.folder.GetOr(env.uploadFolder.GetOr("accounting"))];
    if Truthy(req.publicId) then base["public_id" := req.publicId.value] else base
  }

  /** Joins the parts with `sep` between neighbours (`Array.prototype.join`). */
  function Join(parts: seq<string>, sep: string): string
    decreases |parts|
  {
    if |parts| == 0 then "" else if |parts| == 1 then parts[0] else parts[0] + sep + Join(parts[1..], sep)
  }

  /** `key=value` for each key, in the given order. */
  function Pairs(keys: seq<string>, m: map<string, string>): (r: seq<string>)
    requires forall i :: 0 <= i < |keys| ==> keys[i] in m
    ensures |r| == |keys|
    ensures forall i :: 0 <= i < |keys| ==> r[i] == keys[i] + "=" + m[keys[i]]
  {
    seq(|keys|, i requires 0 <= i < |keys| => keys[i] + "=" + m[keys[i]])
  }

  /** The canonical string: the `key=value` pairs sorted by key and joined with `&`. */
  function StringToSign(m: map<string, string>): string {
    var keys := LexOrder.SortedKeys(m.Keys);
    Join(Pairs(keys, m), "&")
  }

  /**
    The endpoint: a body that cannot be read answers 400 with the error's message
    ("Unknown error" for anything but an `Error`); missing configuration answers 500;
    otherwise the cloud name, the API key, the parameters and the SHA-1 of the
    canonical string followed by the secret.
  */
  function Sign(body: Result<SignRequest, Errors.Thrown>, env: Env, sha1: string -> string): (r: Response)
    ensures r.Signed? <==> body.Success? && Configured(env)
    ensures body.Failure? ==>
      r == Failed(400, if body.error.ErrorObject? then body.error.message else "Unknown error")
    ensures body.Success? && !Configured(env) ==> r == Failed(500, "Cloudinary not configured")
    ensures r.Signed? ==>
      && r.cloudName == env.cloudName.value && r.apiKey == env.apiKey.value
      && r.params == ParamsToSign(body.value, env)
      && r.signature == sha1(StringToSign(r.params) + env.apiSecret.value)
  {
    match body
    case Failure(e) => Failed(400, match e case ErrorObject(message) => message case _ => "Unknown error")
    case Success(req) =>
      if !Configured(env) then Failed(500, "Cloudinary not configured")
      else
        var params := ParamsToSign(req, env);
        Signed(env.cloudName.value, env.apiKey.value, sha1(StringToSign(params) + env.apiSecret.value), params)
  }

  /** The three parameter names in ascending string order. */
  lemma KeyNamesOrdered()
    ensures LexOrder.Lt("folder", "public_id")
    ensures LexOrder.Lt("public_id", "timestamp")
    ensures LexOrder.Lt("folder", "timestamp")
  {
    assert "folder"[0] < "public_id"[0];
    assert "public_id"[0] < "timestamp"[0];
    assert "folder"[0] < "timestamp"[0];
  }

  /** Sorting the three names gives folder, public_id, timestamp. */
  lemma SortedThreeKeys(keys: set<string>)
    requires keys == {"folder", "public_id", "timestamp"}
    ensures LexOrder.SortedKeys(keys) == ["folder", "public_id", "timestamp"]
  {
    var expected := ["folder", "public_id", "timestamp"];
    KeyNamesOrdered();
    assert LexOrder.StrictlySorted(expected);
    assert forall x :: x in expected <==> x in keys;
    LexOrder.SortedUnique(LexOrder.SortedKeys(keys), expected);
  }

  /** Sorting the two names gives folder, timestamp. */
  lemma SortedTwoKeys(keys: set<string>)
    requires keys == {"folder", "timestamp"}
    ensures LexOrder.SortedKeys(keys) == ["folder", "timestamp"]
  {
    var expected := ["folder", "timestamp"];
    KeyNamesOrdered();
    assert LexOrder.StrictlySorted(expected);
    assert forall x :: x in expected <==> x in keys;
    LexOrder.SortedUnique(LexOrder.SortedKeys(keys), expected);
  }

  /** The keys of the signed parameters, in sorted order. */
  lemma SortedParamKeys(req: SignRequest, env: Env)
    ensures Truthy(req.publicId) ==>
      LexOrder.SortedKeys(ParamsToSign(req, env).Keys) == ["folder", "public_id", "timestamp"]
    ensures !Truthy(req.publicId) ==>
      LexOrder.SortedKeys(ParamsToSign(req, env).Keys) == ["folder", "timestamp"]
  {
    var keys := ParamsToSign(req, env).Keys;
    if Truthy(req.publicId) {
      assert keys == {"folder", "public_id", "timestamp"};
      SortedThreeKeys(keys);
    } else {
      assert keys == {"folder", "timestamp"};
      SortedTwoKeys(keys);
    }
  }

  /** Joining two or three parts puts one separator between neighbours. */
  lemma JoinSmall(a: string, b: string, c: string, sep: string)
    ensures Join([a, b], sep) == a + sep + b
    ensures Join([a, b, c], sep) == a + sep + b + sep + c
  {
    assert [a, b][1..] == [b];
    assert [a, b, c][1..] == [b, c];
    assert Join([b, c], sep) == b + sep + c;
  }

  /** The pairs of three keys, written out. */
  lemma PairsOfThree(m: map<string, string>, a: string, b: string, c: string)
    requires a in m && b in m && c in m
    ensures Pairs([a, b, c], m) == [a + "=" + m[a], b + "=" + m[b], c + "=" + m[c]]
  {
    var r := Pairs([a, b, c], m);
    assert r[0] == a + "=" + m[a];
    assert r[1] == b + "=" + m[b];
    assert r[2] == c + "=" + m[c];
  }

  /** The pairs of two keys, written out. */
  lemma PairsOfTwo(m: map<string, string>, a: string, b: string)
    requires a in m && b in m
    ensures Pairs([a, b], m) == [a + "=" + m[a], b + "=" + m[b]]
  {
    var r := Pairs([a, b], m);
    assert r[0] == a + "=" + m[a];
    assert r[1] == b + "=" + m[b];
  }

  /** The canonical string of three sorted keys, written out. */
  lemma JoinedThree(m: map<string, string>)
    requires "folder" in m && "public_id" in m && "timestamp" in m
    ensures Join(Pairs(["folder", "public_id", "timestamp"], m), "&")
      == "folder=" + m["folder"] + "&public_id=" + m["public_id"] + "&timestamp=" + m["timestamp"]
  {
    PairsOfThree(m, "folder", "public_id", "timestamp");
    JoinSmall("folder" + "=" + m["folder"], "public_id" + "=" + m["public_id"], "timestamp" + "=" + m["timestamp"], "&");
  }

  /** The canonical string of two sorted keys, written out. */
  lemma JoinedTwo(m: map<string, string>)
    requires "folder" in m && "timestamp" in m
    ensures Join(Pairs(["folder", "timestamp"], m), "&") == "folder=" + m["folder"] + "&timestamp=" + m["timestamp"]
  {
    PairsOfTwo(m, "folder", "timestamp");
    JoinSmall("folder" + "=" + m["folder"], "timestamp" + "=" + m["timestamp"], "", "&");
  }

  /**
    The exact string that is signed: `folder=F&public_id=P&timestamp=T` with a public
    id, `folder=F&timestamp=T` without.
  */
  lemma StringToSignShape(req: SignRequest, env: Env)
    ensures var m := ParamsToSign(req, env);
      Truthy(req.publicId) ==>
        StringToSign(m) == "folder=" + m["folder"] + "&public_id=" + req.publicId.value + "&timestamp=" + req.timestamp
    ensures var m := ParamsToSign(req, env);
      !Truthy(req.publicId) ==>
        StringToSign(m) == "folder=" + m["folder"] + "&timestamp=" + req.timestamp
  {
    var m := ParamsToSign(req, env);
    SortedParamKeys(req, env);
    if Truthy(req.publicId) {
      JoinedThree(m);
    } else {
      JoinedTwo(m);
    }
  }

  /** An empty public id is signed exactly as an absent one. */
  lemma EmptyPublicIdIgnored(req: SignRequest, env: Env)
    requires req.publicId == Some("")
    ensures ParamsToSign(req, env) == ParamsToSign(req.(publicId := None), env)
  {
  }
}
