/**
  The library calls the request layer makes and whose behaviour is not part
  of this model. They are passed in as functions, so every property proved
  holds whatever they compute.
*/
module Foreign {
  import opened Wrappers
  import opened RubyHash
  import XmlTree

  /**
    The document `content` asks Nokogiri's builder for: a root element named
    `root` with an `xmlns` attribute and one child element per pair of
    `children`, in order, holding the value as text.
  */
  datatype Envelope = Envelope(root: string, xmlns: string, children: Hash<string>)

  datatype Library = Library(
    toQuery: Hash<string> -> string,             // ActiveSupport Hash#to_query
    toXml: Envelope -> string,                   // Nokogiri::XML::Builder#to_xml
    fromXml: string -> Result<XmlTree.Node>,     // ActiveSupport Hash.from_xml, or what it raises
    md5HexDigest: string -> string,              // Digest::MD5.hexdigest
    encode64: string -> string,                  // Base64.encode64
    hmacSha1: (string, string) -> string         // OpenSSL::HMAC.digest(SHA1, key, data)
  )
}
